/** The subplugin registry of the AI Tools plugin (classes/manager.php).

    `get_plugins` loads every discovered subplugin whose class exists, that
    implements the plugin interface, whose own `has_access()` holds and whose
    cohort gate holds, and caches the result in a static field until
    `clear_cache`. Dashboard blocks of all loaded plugins are collected and
    sorted by weight; tools are grouped by category; statistics count them. */
module Manager {
  import opened Common
  import opened Sorting

  const Prefix := "aitoolsub_"
  const DefaultWeight := 50
  const DefaultCategory := "general"

  /** A dashboard block as a plugin declares it, under its array key. */
  datatype Block = Block(key: string, weight: Option<int>)

  /** A tool as a plugin declares it, under its array key. */
  datatype Tool = Tool(key: string, category: Option<string>)

  /** A plugin instance. `tools` and `blocks` are the results of its
      get_tools() and get_dashboard_blocks(); None means the call threw. */
  datatype Plugin = Plugin(implementsInterface: bool, hasAccess: bool,
                           tools: Option<seq<Tool>>, blocks: Option<seq<Block>>)

  /** A discovered subplugin name; `instance` is None when its class does not
      exist or its constructor threw. */
  datatype Candidate = Candidate(name: string, instance: Option<Plugin>)

  /** An entry of the `$plugins` array: normalised name and instance. */
  datatype Loaded = Loaded(name: string, plugin: Plugin)

  /** A block tagged with its plugin name and block key. */
  datatype TaggedBlock = TaggedBlock(plugin: string, blockKey: string, weight: Option<int>)

  /** A tool tagged with its plugin name and tool key. */
  datatype TaggedTool = TaggedTool(plugin: string, toolKey: string, category: Option<string>)

  datatype Statistics = Statistics(totalPlugins: nat, totalTools: nat, totalBlocks: nat)

  /** Adds the `aitoolsub_` prefix unless the name already carries it. */
  function NormaliseName(name: string): (r: string)
    ensures Prefix <= r
    ensures Prefix <= name ==> r == name
    ensures r == name || r == Prefix + name
  {
    if Prefix <= name then name else Prefix + name
  }

  lemma NormaliseIdempotent(name: string)
    ensures NormaliseName(NormaliseName(name)) == NormaliseName(name)
  {
  }

  /** The three checks a subplugin must pass to be loaded; `cohortGate` is
      has_cohort_access for the current user, asked with the normalised name. */
  predicate Passes(c: Candidate, cohortGate: string -> bool) {
    && c.instance.Some?
    && c.instance.value.implementsInterface
    && c.instance.value.hasAccess
    && cohortGate(NormaliseName(c.name))
  }

  function Names(ps: seq<Loaded>): seq<string> {
    seq(|ps|, i requires 0 <= i < |ps| => ps[i].name)
  }

  /** Position of `name` in `ps`, if any. */
  function IndexOf(ps: seq<Loaded>, name: string): (r: Option<nat>)
    ensures r.Some? ==> r.value < |ps| && ps[r.value].name == name
    ensures r.None? ==> forall i :: 0 <= i < |ps| ==> ps[i].name != name
  {
    if ps == [] then None
    else if ps[|ps| - 1].name == name then Some(|ps| - 1)
    else IndexOf(ps[..|ps| - 1], name)
  }

  /** `$plugins[$name] = $instance`: PHP overwrites an existing key in place
      and appends a new key at the end. */
  function Upsert(ps: seq<Loaded>, l: Loaded): (r: seq<Loaded>)
    ensures l in r
    ensures l.name in Names(ps) ==> Names(r) == Names(ps)
    ensures l.name !in Names(ps) ==> Names(r) == Names(ps) + [l.name] && r[..|ps|] == ps && r[|ps|] == l
    ensures forall x :: x in r ==> x == l || x in ps
    ensures Distinct(Names(ps)) ==>
      && (forall k :: 0 <= k < |ps| ==> r[k] == (if ps[k].name == l.name then l else ps[k]))
      && (forall x :: x in r ==> x == l || (x in ps && x.name != l.name))
  {
    match IndexOf(ps, l.name)
    case Some(i) =>
      assert Names(ps)[i] == l.name;
      assert forall k :: 0 <= k < |ps| ==> Names(ps[i := l])[k] == Names(ps)[k];
      assert forall k :: 0 <= k < |ps| ==> Names(ps)[k] == ps[k].name;
      assert Distinct(Names(ps)) ==> forall k :: 0 <= k < |ps| && k != i ==> Names(ps)[k] != Names(ps)[i];
      ps[i := l]
    case None =>
      assert forall k :: 0 <= k < |ps| ==> Names(ps)[k] != l.name;
      ps + [l]
  }

  /** What the loading loop of get_plugins computes from the discovered list. */
  function LoadPlugins(cs: seq<Candidate>, cohortGate: string -> bool): seq<Loaded> {
    if cs == [] then []
    else
      var ps, c := LoadPlugins(cs[..|cs| - 1], cohortGate), cs[|cs| - 1];
      if Passes(c, cohortGate) then Upsert(ps, Loaded(NormaliseName(c.name), c.instance.value)) else ps
  }

  ghost predicate Distinct<T>(s: seq<T>) {
    forall i, j :: 0 <= i < j < |s| ==> s[i] != s[j]
  }

  /** A name is loaded iff some discovered subplugin with that normalised name
      passes all three checks. */
  lemma {:induction false} LoadPluginsNames(cs: seq<Candidate>, cohortGate: string -> bool, name: string)
    ensures name in Names(LoadPlugins(cs, cohortGate))
        <==> exists i :: 0 <= i < |cs| && Passes(cs[i], cohortGate) && NormaliseName(cs[i].name) == name
  {
    if cs != [] {
      var init, c := cs[..|cs| - 1], cs[|cs| - 1];
      LoadPluginsNames(init, cohortGate, name);
      assert name in Names(LoadPlugins(cs, cohortGate))
        <==> name in Names(LoadPlugins(init, cohortGate)) || (Passes(c, cohortGate) && NormaliseName(c.name) == name);
      ProvidedStep(cs, cohortGate, name);
    }
  }

  /** Some subplugin among `cs` passes and normalises to `name`. */
  ghost predicate Provided(cs: seq<Candidate>, cohortGate: string -> bool, name: string) {
    exists i :: 0 <= i < |cs| && Passes(cs[i], cohortGate) && NormaliseName(cs[i].name) == name
  }

  lemma ProvidedStep(cs: seq<Candidate>, cohortGate: string -> bool, name: string)
    requires cs != []
    ensures Provided(cs, cohortGate, name) <==>
      || Provided(cs[..|cs| - 1], cohortGate, name)
      || (Passes(cs[|cs| - 1], cohortGate) && NormaliseName(cs[|cs| - 1].name) == name)
  {
    var init := cs[..|cs| - 1];
    if Provided(cs, cohortGate, name) {
      var i :| 0 <= i < |cs| && Passes(cs[i], cohortGate) && NormaliseName(cs[i].name) == name;
      if i < |init| {
        assert init[i] == cs[i];
      }
    }
    if Provided(init, cohortGate, name) {
      var i :| 0 <= i < |init| && Passes(init[i], cohortGate) && NormaliseName(init[i].name) == name;
      assert cs[i] == init[i];
    }
  }

  /** No name is loaded twice: a later subplugin with the same normalised name
      replaces the earlier one. */
  lemma {:induction false} LoadPluginsDistinct(cs: seq<Candidate>, cohortGate: string -> bool)
    ensures Distinct(Names(LoadPlugins(cs, cohortGate)))
  {
    if cs != [] {
      LoadPluginsDistinct(cs[..|cs| - 1], cohortGate);
    }
  }

  /** `cs[i]` passes and no later subplugin that passes has its normalised
      name. */
  ghost predicate LastPassing(cs: seq<Candidate>, cohortGate: string -> bool, i: int) {
    && 0 <= i < |cs| && Passes(cs[i], cohortGate)
    && forall k :: i < k < |cs| && Passes(cs[k], cohortGate) ==> NormaliseName(cs[k].name) != NormaliseName(cs[i].name)
  }

  /** A last passing subplugin stays last when one of another name, or
      one that fails, follows. */
  lemma LastPassingExtends(cs: seq<Candidate>, cohortGate: string -> bool, i: int)
    requires cs != [] && LastPassing(cs[..|cs| - 1], cohortGate, i)
    requires Passes(cs[|cs| - 1], cohortGate) ==> NormaliseName(cs[|cs| - 1].name) != NormaliseName(cs[i].name)
    ensures LastPassing(cs, cohortGate, i)
  {
    var init := cs[..|cs| - 1];
    assert cs[i] == init[i];
    forall k | i < k < |init|
      ensures cs[k] == init[k]
    {
    }
  }

  /** Each loaded plugin is the instance of the last discovered subplugin
      that passes the checks under its normalised name. */
  lemma {:induction false} LoadPluginsLastWins(cs: seq<Candidate>, cohortGate: string -> bool)
    ensures forall l :: l in LoadPlugins(cs, cohortGate) ==>
      exists i :: LastPassing(cs, cohortGate, i) && l == Loaded(NormaliseName(cs[i].name), cs[i].instance.value)
  {
    if cs != [] {
      var init, c := cs[..|cs| - 1], cs[|cs| - 1];
      var ps := LoadPlugins(init, cohortGate);
      LoadPluginsLastWins(init, cohortGate);
      forall l | l in LoadPlugins(cs, cohortGate)
        ensures exists i :: LastPassing(cs, cohortGate, i) && l == Loaded(NormaliseName(cs[i].name), cs[i].instance.value)
      {
        if !Passes(c, cohortGate) {
          var i :| LastPassing(init, cohortGate, i) && l == Loaded(NormaliseName(init[i].name), init[i].instance.value);
          LastPassingExtends(cs, cohortGate, i);
        } else {
          var lc := Loaded(NormaliseName(c.name), c.instance.value);
          LoadPluginsDistinct(init, cohortGate);
          assert l == lc || (l in ps && l.name != lc.name);
          if l == lc {
            assert LastPassing(cs, cohortGate, |cs| - 1);
          } else {
            var i :| LastPassing(init, cohortGate, i) && l == Loaded(NormaliseName(init[i].name), init[i].instance.value);
            LastPassingExtends(cs, cohortGate, i);
          }
        }
      }
    }
  }

  /** Every loaded plugin implements the interface, grants access, passed its
      cohort gate and carries the prefix. */
  lemma {:induction false} LoadPluginsChecked(cs: seq<Candidate>, cohortGate: string -> bool)
    ensures forall l :: l in LoadPlugins(cs, cohortGate) ==>
      && Prefix <= l.name && l.plugin.implementsInterface && l.plugin.hasAccess && cohortGate(l.name)
  {
    if cs != [] {
      LoadPluginsChecked(cs[..|cs| - 1], cohortGate);
    }
  }

  /** The blocks of one plugin, tagged; a plugin whose call threw gives none. */
  function TagBlocks(name: string, blocks: seq<Block>): (r: seq<TaggedBlock>)
    ensures |r| == |blocks|
  {
    if blocks == [] then []
    else
      var b := blocks[|blocks| - 1];
      TagBlocks(name, blocks[..|blocks| - 1]) + [TaggedBlock(name, b.key, b.weight)]
  }

  lemma {:induction false} TagBlocksMember(name: string, bs: seq<Block>, tb: TaggedBlock)
    requires tb in TagBlocks(name, bs)
    ensures tb.plugin == name && Block(tb.blockKey, tb.weight) in bs
  {
    var init, b := bs[..|bs| - 1], bs[|bs| - 1];
    if tb != TaggedBlock(name, b.key, b.weight) {
      TagBlocksMember(name, init, tb);
    }
  }

  /** The blocks of all loaded plugins in plugin order, before sorting. */
  function AllBlocks(ps: seq<Loaded>): seq<TaggedBlock> {
    if ps == [] then []
    else AllBlocks(ps[..|ps| - 1]) + TagBlocks(ps[|ps| - 1].name, ps[|ps| - 1].plugin.blocks.GetOr([]))
  }

  /** The sort key of a block: its weight, 50 when it has none. */
  function WeightOf(b: TaggedBlock): int {
    b.weight.GetOr(DefaultWeight)
  }

  function TagTools(name: string, tools: seq<Tool>): (r: seq<TaggedTool>)
    ensures |r| == |tools|
  {
    if tools == [] then []
    else
      var t := tools[|tools| - 1];
      TagTools(name, tools[..|tools| - 1]) + [TaggedTool(name, t.key, t.category)]
  }

  /** The tools of all loaded plugins in plugin order. */
  function AllTools(ps: seq<Loaded>): seq<TaggedTool> {
    if ps == [] then []
    else AllTools(ps[..|ps| - 1]) + TagTools(ps[|ps| - 1].name, ps[|ps| - 1].plugin.tools.GetOr([]))
  }

  function CategoryOf(t: TaggedTool): string {
    t.category.GetOr(DefaultCategory)
  }

  function InCategory(c: string): TaggedTool -> bool {
    t => CategoryOf(t) == c
  }

  /** `$tools[$category][] = $tool`. */
  function AddTool(m: map<string, seq<TaggedTool>>, t: TaggedTool): map<string, seq<TaggedTool>> {
    m[CategoryOf(t) := (if CategoryOf(t) in m then m[CategoryOf(t)] else []) + [t]]
  }

  /** AddTool applied to every tool in turn. */
  function ByCategory(ts: seq<TaggedTool>): map<string, seq<TaggedTool>> {
    if ts == [] then map[] else AddTool(ByCategory(ts[..|ts| - 1]), ts[|ts| - 1])
  }

  lemma AddToolStep(ts: seq<TaggedTool>, t: TaggedTool)
    ensures ByCategory(ts + [t]) == AddTool(ByCategory(ts), t)
  {
    assert (ts + [t])[..|ts|] == ts;
  }

  /** The category buckets are exactly the categories in use (a missing
      category counting as 'general'), and each bucket holds the tools of its
      category in order; so every tool lands in exactly one bucket. */
  lemma {:induction false} ByCategoryIsPartition(ts: seq<TaggedTool>, c: string)
    ensures c in ByCategory(ts) <==> exists i :: 0 <= i < |ts| && CategoryOf(ts[i]) == c
    ensures c in ByCategory(ts) ==> ByCategory(ts)[c] == Filter(ts, InCategory(c))
    ensures c !in ByCategory(ts) ==> Filter(ts, InCategory(c)) == []
  {
    if ts != [] {
      var init, t := ts[..|ts| - 1], ts[|ts| - 1];
      ByCategoryIsPartition(init, c);
      assert forall i :: 0 <= i < |init| ==> init[i] == ts[i];
      if exists i :: 0 <= i < |ts| && CategoryOf(ts[i]) == c {
        var i :| 0 <= i < |ts| && CategoryOf(ts[i]) == c;
        if i < |init| {
          assert init[i] == ts[i];
        }
      }
    }
  }

  lemma ToolInItsBucketOnly(ts: seq<TaggedTool>, i: nat, c: string)
    requires i < |ts|
    ensures CategoryOf(ts[i]) in ByCategory(ts)
    ensures ts[i] in ByCategory(ts)[CategoryOf(ts[i])]
    ensures c != CategoryOf(ts[i]) && c in ByCategory(ts) ==> ts[i] !in ByCategory(ts)[c]
  {
    ByCategoryIsPartition(ts, CategoryOf(ts[i]));
    ByCategoryIsPartition(ts, c);
    FilterKeeps(ts, InCategory(CategoryOf(ts[i])), ts[i]);
  }

  /** The plugins whose get_tools() and get_dashboard_blocks() both return:
      get_statistics stops counting at the first plugin where either throws. */
  function UntilFailure(ps: seq<Loaded>): (r: seq<Loaded>)
    ensures |r| <= |ps| && r == ps[..|r|]
    ensures forall k :: 0 <= k < |r| ==> r[k].plugin.tools.Some? && r[k].plugin.blocks.Some?
    ensures |r| < |ps| ==> ps[|r|].plugin.tools.None? || ps[|r|].plugin.blocks.None?
  {
    if ps == [] || ps[0].plugin.tools.None? || ps[0].plugin.blocks.None? then []
    else [ps[0]] + UntilFailure(ps[1..])
  }

  function ToolCount(ps: seq<Loaded>): nat {
    if ps == [] then 0 else ToolCount(ps[..|ps| - 1]) + |ps[|ps| - 1].plugin.tools.GetOr([])|
  }

  function BlockCount(ps: seq<Loaded>): nat {
    if ps == [] then 0 else BlockCount(ps[..|ps| - 1]) + |ps[|ps| - 1].plugin.blocks.GetOr([])|
  }

  /** The counters agree with the tools and blocks the other two operations
      collect: per-plugin counts sum to the length of the collected lists. */
  lemma {:induction false} CountsMatchCollections(ps: seq<Loaded>)
    ensures ToolCount(ps) == |AllTools(ps)|
    ensures BlockCount(ps) == |AllBlocks(ps)|
  {
    if ps != [] {
      CountsMatchCollections(ps[..|ps| - 1]);
    }
  }

  /** The static plugin cache and the operations that read it. */
  class Registry {
    var cache: Option<seq<Loaded>>

    constructor ()
      ensures cache == None
    {
      cache := None;
    }

    /** get_plugins: returns the cache when it is set; otherwise loads,
        stores and returns a fresh result. */
    method GetPlugins(discovered: seq<Candidate>, cohortGate: string -> bool)
      returns (plugins: seq<Loaded>)
      modifies this
      ensures old(cache).Some? ==> cache == old(cache) && plugins == old(cache).value
      ensures old(cache).None? ==> plugins == LoadPlugins(discovered, cohortGate)
      ensures cache == Some(plugins)
    {
      if cache.Some? {
        return cache.value;
      }
      plugins := [];
      var i := 0;
      while i < |discovered|
        invariant 0 <= i <= |discovered|
        invariant plugins == LoadPlugins(discovered[..i], cohortGate)
      {
        var c := discovered[i];
        var name := NormaliseName(c.name);
        if c.instance.Some? {
          var p := c.instance.value;
          if p.implementsInterface && p.hasAccess && cohortGate(name) {
            plugins := Upsert(plugins, Loaded(name, p));
          }
        }
        assert discovered[..i + 1][..i] == discovered[..i];
        i := i + 1;
      }
      assert discovered[..i] == discovered;
      cache := Some(plugins);
    }

    /** clear_cache. */
    method ClearCache()
      modifies this
      ensures cache == None
    {
      cache := None;
    }

    /** get_dashboard_blocks. */
    method GetDashboardBlocks(discovered: seq<Candidate>, cohortGate: string -> bool)
      returns (blocks: seq<TaggedBlock>)
      modifies this
      ensures cache.Some?
      ensures old(cache).Some? ==> cache == old(cache)
      ensures old(cache).None? ==> cache == Some(LoadPlugins(discovered, cohortGate))
      ensures blocks == SortBy(AllBlocks(cache.value), WeightOf)
    {
      var plugins := GetPlugins(discovered, cohortGate);
      blocks := SortedBlocks(plugins);
    }

    /** get_tools. */
    method GetTools(discovered: seq<Candidate>, cohortGate: string -> bool)
      returns (tools: map<string, seq<TaggedTool>>)
      modifies this
      ensures cache.Some?
      ensures old(cache).Some? ==> cache == old(cache)
      ensures old(cache).None? ==> cache == Some(LoadPlugins(discovered, cohortGate))
      ensures tools == ByCategory(AllTools(cache.value))
    {
      var plugins := GetPlugins(discovered, cohortGate);
      tools := GroupTools(plugins);
    }

    /** get_statistics. */
    method GetStatistics(discovered: seq<Candidate>, cohortGate: string -> bool)
      returns (stats: Statistics)
      modifies this
      ensures cache.Some?
      ensures old(cache).Some? ==> cache == old(cache)
      ensures old(cache).None? ==> cache == Some(LoadPlugins(discovered, cohortGate))
      ensures stats.totalPlugins == |cache.value|
      ensures stats.totalTools == ToolCount(UntilFailure(cache.value))
      ensures stats.totalBlocks == BlockCount(UntilFailure(cache.value))
    {
      var plugins := GetPlugins(discovered, cohortGate);
      stats := CountAll(plugins);
    }
  }

  /** The body of get_dashboard_blocks over the loaded plugins: every block of
      every plugin, tagged, then sorted by weight (usort is stable). */
  method SortedBlocks(plugins: seq<Loaded>) returns (blocks: seq<TaggedBlock>)
    ensures blocks == SortBy(AllBlocks(plugins), WeightOf)
  {
    var collected: seq<TaggedBlock> := [];
    var i := 0;
    while i < |plugins|
      invariant 0 <= i <= |plugins|
      invariant collected == AllBlocks(plugins[..i])
    {
      var name, pb := plugins[i].name, plugins[i].plugin.blocks;
      if pb.Some? {
        var j := 0;
        while j < |pb.value|
          invariant 0 <= j <= |pb.value|
          invariant collected == AllBlocks(plugins[..i]) + TagBlocks(name, pb.value[..j])
        {
          assert pb.value[..j + 1][..j] == pb.value[..j];
          collected := collected + [TaggedBlock(name, pb.value[j].key, pb.value[j].weight)];
          j := j + 1;
        }
        assert pb.value[..j] == pb.value;
      }
      assert plugins[..i + 1][..i] == plugins[..i];
      i := i + 1;
    }
    assert plugins[..i] == plugins;
    blocks := SortBy(collected, WeightOf);
  }

  /** The body of get_tools over the loaded plugins: tools grouped by
      category, 'general' when a tool names none. */
  method GroupTools(plugins: seq<Loaded>) returns (tools: map<string, seq<TaggedTool>>)
    ensures tools == ByCategory(AllTools(plugins))
  {
    tools := map[];
    var i := 0;
    while i < |plugins|
      invariant 0 <= i <= |plugins|
      invariant tools == ByCategory(AllTools(plugins[..i]))
    {
      var name, pt := plugins[i].name, plugins[i].plugin.tools;
      assert plugins[..i + 1][..i] == plugins[..i];
      assert AllTools(plugins[..i + 1]) == AllTools(plugins[..i]) + TagTools(name, pt.GetOr([]));
      if pt.Some? {
        tools := AddPluginTools(tools, name, pt.value, AllTools(plugins[..i]));
      } else {
        assert AllTools(plugins[..i]) + TagTools(name, []) == AllTools(plugins[..i]);
      }
      i := i + 1;
    }
    assert plugins[..i] == plugins;
  }

  /** The inner loop of get_tools: files one plugin's tools, in order. */
  method AddPluginTools(tools0: map<string, seq<TaggedTool>>, name: string, ts: seq<Tool>,
                        ghost before: seq<TaggedTool>)
    returns (tools: map<string, seq<TaggedTool>>)
    requires tools0 == ByCategory(before)
    ensures tools == ByCategory(before + TagTools(name, ts))
  {
    tools := tools0;
    assert before + TagTools(name, ts[..0]) == before;
    for j := 0 to |ts|
      invariant tools == ByCategory(before + TagTools(name, ts[..j]))
    {
      var t := TaggedTool(name, ts[j].key, ts[j].category);
      assert ts[..j + 1][..j] == ts[..j];
      assert before + TagTools(name, ts[..j + 1]) == (before + TagTools(name, ts[..j])) + [t];
      AddToolStep(before + TagTools(name, ts[..j]), t);
      tools := AddTool(tools, t);
    }
    assert ts[..|ts|] == ts;
  }

  /** The body of get_statistics over the loaded plugins: the number of
      plugins and the summed per-plugin counts of tools and blocks, up to the
      first plugin whose calls throw (the exception ends the loop). */
  method CountAll(plugins: seq<Loaded>) returns (stats: Statistics)
    ensures stats.totalPlugins == |plugins|
    ensures stats.totalTools == ToolCount(UntilFailure(plugins))
    ensures stats.totalBlocks == BlockCount(UntilFailure(plugins))
  {
    var good := UntilFailure(plugins);
    var totalTools, totalBlocks := 0, 0;
    var i := 0;
    while i < |plugins|
      invariant 0 <= i <= |good|
      invariant totalTools == ToolCount(good[..i]) && totalBlocks == BlockCount(good[..i])
    {
      var p := plugins[i].plugin;
      if p.tools.None? || p.blocks.None? {
        break;
      }
      assert good[..i + 1][..i] == good[..i];
      totalTools := totalTools + |p.tools.value|;
      totalBlocks := totalBlocks + |p.blocks.value|;
      i := i + 1;
    }
    assert good[..i] == good;
    stats := Statistics(|plugins|, totalTools, totalBlocks);
  }

  /** Dashboard blocks come out ordered by weight (missing weight = 50), hold
      exactly the collected blocks, and blocks of equal weight keep the order
      in which the plugins listed them. */
  lemma DashboardBlocksOrdered(ps: seq<Loaded>, w: int)
    ensures SortedBy(SortBy(AllBlocks(ps), WeightOf), WeightOf)
    ensures multiset(SortBy(AllBlocks(ps), WeightOf)) == multiset(AllBlocks(ps))
    ensures Filter(SortBy(AllBlocks(ps), WeightOf), KeyIs(WeightOf, w)) == Filter(AllBlocks(ps), KeyIs(WeightOf, w))
  {
    SortByStable(AllBlocks(ps), WeightOf, w);
  }

  /** Every collected block is tagged with the name of the plugin that declared
      it and with its own key. */
  lemma {:induction false} AllBlocksTagged(ps: seq<Loaded>, tb: TaggedBlock)
    requires tb in AllBlocks(ps)
    ensures exists k :: 0 <= k < |ps| && ps[k].name == tb.plugin && ps[k].plugin.blocks.Some?
              && Block(tb.blockKey, tb.weight) in ps[k].plugin.blocks.value
  {
    var init, last := ps[..|ps| - 1], ps[|ps| - 1];
    if tb in AllBlocks(init) {
      AllBlocksTagged(init, tb);
      var k :| 0 <= k < |init| && init[k].name == tb.plugin && init[k].plugin.blocks.Some?
              && Block(tb.blockKey, tb.weight) in init[k].plugin.blocks.value;
      assert ps[k] == init[k];
    } else {
      TagBlocksMember(last.name, last.plugin.blocks.GetOr([]), tb);
      assert ps[|ps| - 1] == last;
    }
  }
}
