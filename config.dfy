/** `load_config`: overlay the parsed TOML file on `DEFAULT_CONFIG`. The copy
    is shallow, so the sub-tables that the file overlays are the default
    ones, and `DEFAULT_CONFIG` itself changes. TOML parsing is not modelled:
    `LoadConfig` receives its result. */
module Config {
  import opened Wrappers

  /** A TOML value as `tomli` loads it. */
  datatype Toml =
    | TStr(s: string)
    | TInt(i: int)
    | TBool(b: bool)
    | TArr(items: seq<Toml>)
    | TTable(entries: map<string, Toml>)

  /** `DEFAULT_CONFIG`: every top-level value is a table. */
  type Defaults = map<string, map<string, Toml>>

  const DefaultConfig: Defaults := map[
    "llm" := map["provider" := TStr("openai"), "model" := TStr("gpt-4o-mini"), "api_key_env" := TStr("OPENAI_API_KEY")],
    "session" := map["persistent_memory" := TBool(true)],
    "execution" := map["working_dir" := TStr("./.aiops_workspace"), "auto_run_if_confident" := TBool(false)]
  ]

  /** The state of the merge loop: the (shared) default tables, the top-level
      entries replaced in `merged`, and whether an exception ended the loop. */
  datatype Merge = Merge(tables: Defaults, replaced: map<string, Toml>, failed: bool)

  /** One iteration over `(k, v)` of the file. */
  function Step(m: Merge, item: (string, Toml)): (n: Merge)
    ensures m.failed ==> n == m
  {
    var (k, v) := item;
    if m.failed then m
    else if v.TTable? then
      if k in m.replaced then m.(failed := true)          // `.update` on a non-dict: AttributeError
      else if k in m.tables then m.(tables := m.tables[k := m.tables[k] + v.entries])
      else m.(failed := true)                              // `merged[k]` missing: KeyError
    else m.(replaced := m.replaced[k := v])
  }

  /** The loop over the first `|items|` file entries. */
  function Fold(m: Merge, items: seq<(string, Toml)>): Merge
    decreases |items|
  {
    if items == [] then m else Step(Fold(m, items[..|items| - 1]), items[|items| - 1])
  }

  /** `merged`: a default table or the replacement, for every key of either. */
  function View(tables: Defaults, replaced: map<string, Toml>): (cfg: map<string, Toml>)
    ensures cfg.Keys == tables.Keys + replaced.Keys
    ensures forall k :: k in replaced ==> cfg[k] == replaced[k]
    ensures forall k :: k in tables && k !in replaced ==> cfg[k] == TTable(tables[k])
  {
    map k | k in tables.Keys + replaced.Keys :: if k in replaced then replaced[k] else TTable(tables[k])
  }

  /** What `load_config` returns after the loop: `merged`, or `DEFAULT_CONFIG` (as
      the loop left it) when an exception was raised. */
  function Outcome(m: Merge): map<string, Toml> {
    if m.failed then View(m.tables, map[]) else View(m.tables, m.replaced)
  }

  predicate DistinctKeys(items: seq<(string, Toml)>) {
    forall i, j :: 0 <= i < j < |items| ==> items[i].0 != items[j].0
  }

  predicate HasKey(items: seq<(string, Toml)>, k: string) {
    exists i :: 0 <= i < |items| && items[i].0 == k
  }

  /** The module holding `DEFAULT_CONFIG`, whose sub-tables `load_config` mutates. */
  class ConfigModule {
    var defaultConfig: Defaults

    constructor ()
      ensures defaultConfig == DefaultConfig
    {
      defaultConfig := DefaultConfig;
    }

    /** `load_config`. `parsed` is `tomli.load`'s result, None when parsing raised. */
    method LoadConfig(fileExists: bool, parsed: Option<seq<(string, Toml)>>) returns (cfg: map<string, Toml>)
      modifies this
      ensures !fileExists || parsed.None? ==>
        defaultConfig == old(defaultConfig) && cfg == View(defaultConfig, map[])
      ensures fileExists && parsed.Some? ==>
        var m := FoldFrom(old(defaultConfig), parsed.value);
        defaultConfig == m.tables && cfg == Outcome(m)
    {
      if !fileExists || parsed.None? {
        return View(defaultConfig, map[]);
      }
      var items := parsed.value;
      var replaced: map<string, Toml> := map[];
      var i := 0;
      while i < |items|
        invariant 0 <= i <= |items|
        invariant FoldFrom(old(defaultConfig), items[..i]) == Merge(defaultConfig, replaced, false)
      {
        assert items[..i + 1][..i] == items[..i];
        var (k, v) := items[i];
        if v.TTable? {
          if k in replaced || k !in defaultConfig {
            FailureSticks(Merge(old(defaultConfig), map[], false), items, i + 1);
            return View(defaultConfig, map[]);
          }
          defaultConfig := defaultConfig[k := defaultConfig[k] + v.entries];
        } else {
          replaced := replaced[k := v];
        }
        i := i + 1;
      }
      assert items[..i] == items;
      return View(defaultConfig, replaced);
    }
  }

  /** The loop over all of `items`, starting from the defaults `d`. */
  function FoldFrom(d: Defaults, items: seq<(string, Toml)>): Merge {
    Fold(Merge(d, map[], false), items)
  }

  /** Once an exception is raised, the remaining entries change nothing. */
  lemma {:induction false} FailureSticks(m0: Merge, items: seq<(string, Toml)>, n: nat)
    requires n <= |items| && Fold(m0, items[..n]).failed
    ensures Fold(m0, items) == Fold(m0, items[..n])
    decreases |items|
  {
    if |items| == n {
      assert items[..n] == items;
    } else {
      var prefix := items[..|items| - 1];
      assert prefix[..n] == items[..n];
      FailureSticks(m0, prefix, n);
    }
  }

  lemma HasKeyOfPrefix(items: seq<(string, Toml)>, k: string)
    requires items != [] && !HasKey(items, k)
    ensures !HasKey(items[..|items| - 1], k) && items[|items| - 1].0 != k
  {
  }

  /** A key the file does not mention keeps its default table and is not replaced. */
  lemma {:induction false} FoldUntouched(d: Defaults, items: seq<(string, Toml)>, k: string)
    requires !HasKey(items, k)
    ensures var m := FoldFrom(d, items);
      && (k in m.tables <==> k in d) && (k in d ==> m.tables[k] == d[k]) && k !in m.replaced
    decreases |items|
  {
    if items != [] {
      HasKeyOfPrefix(items, k);
      FoldUntouched(d, items[..|items| - 1], k);
    }
  }

  /** With distinct keys and no exception, the `i`-th file entry decides its key:
      a table is overlaid on the default table (which is thereby changed), any
      other value replaces the entry. */
  lemma {:induction false} FoldSetsKey(d: Defaults, items: seq<(string, Toml)>, i: nat)
    requires DistinctKeys(items) && i < |items| && !FoldFrom(d, items).failed
    ensures var (k, v) := items[i]; var m := FoldFrom(d, items);
      && (!v.TTable? ==> k in m.replaced && m.replaced[k] == v)
      && (v.TTable? ==> k in d && k in m.tables && m.tables[k] == d[k] + v.entries && k !in m.replaced)
    decreases |items|
  {
    var prefix := items[..|items| - 1];
    var before := FoldFrom(d, prefix);
    assert !before.failed;
    assert DistinctKeys(prefix) by {
      forall a, b | 0 <= a < b < |prefix| ensures prefix[a].0 != prefix[b].0 {
        assert prefix[a] == items[a] && prefix[b] == items[b];
      }
    }
    if i == |items| - 1 {
      assert !HasKey(prefix, items[i].0);
      FoldUntouched(d, prefix, items[i].0);
    } else {
      assert prefix[i] == items[i];
      FoldSetsKey(d, prefix, i);
      assert items[|items| - 1].0 != items[i].0;
    }
  }

  /** Keys the file does not mention keep their default value, even when an
      exception cut the loop short. */
  lemma AbsentKeysKeepDefaults(d: Defaults, items: seq<(string, Toml)>, k: string)
    requires k in d && !HasKey(items, k)
    ensures k in Outcome(FoldFrom(d, items)) && Outcome(FoldFrom(d, items))[k] == TTable(d[k])
  {
    FoldUntouched(d, items, k);
  }

  /** A non-table value replaces its entry outright. */
  lemma ScalarReplaces(d: Defaults, items: seq<(string, Toml)>, i: nat)
    requires DistinctKeys(items) && i < |items| && !items[i].1.TTable? && !FoldFrom(d, items).failed
    ensures items[i].0 in Outcome(FoldFrom(d, items)) && Outcome(FoldFrom(d, items))[items[i].0] == items[i].1
  {
    FoldSetsKey(d, items, i);
  }

  /** A table overlays its entries key by key on the default table, and that
      default table itself now holds the overlay. */
  lemma TableOverlays(d: Defaults, items: seq<(string, Toml)>, i: nat)
    requires DistinctKeys(items) && i < |items| && items[i].1.TTable? && !FoldFrom(d, items).failed
    ensures var (k, v) := items[i];
      && k in d && k in Outcome(FoldFrom(d, items))
      && Outcome(FoldFrom(d, items))[k] == TTable(d[k] + v.entries)
      && k in FoldFrom(d, items).tables && FoldFrom(d, items).tables[k] == d[k] + v.entries
  {
    FoldSetsKey(d, items, i);
  }

  /** A table for a key the defaults lack raises KeyError, and the defaults
      (as mutated so far) are returned. */
  lemma UnknownTableFails(d: Defaults, items: seq<(string, Toml)>, i: nat)
    requires DistinctKeys(items) && i < |items| && items[i].1.TTable? && items[i].0 !in d
    ensures FoldFrom(d, items).failed
    ensures Outcome(FoldFrom(d, items)) == View(FoldFrom(d, items).tables, map[])
  {
    if !FoldFrom(d, items).failed {
      FoldSetsKey(d, items, i);
    }
  }
}
