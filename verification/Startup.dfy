/**
 * The layers on the heap: `sconf_opts_parse`, `sconf_env_read`, `sconf_defaults` and
 * `sconf_initialize`.
 */
module Startup {

  import opened Basics
  import opened Convert
  import opened ConfigMap
  import opened ConfigTree
  import opened OptionTables
  import opened PathSpec
  import opened Yaml
  import opened YamlDocs
  import opened Configs
  import opened Insertion
  import opened Paths
  import opened YamlReader
  import opened Layers

  // ----- what the C code takes for granted

  /** Paths without the one index that does not fit. */
  predicate SafeMap(cmap: seq<MapEntry>) {
    forall e :: e in cmap && e.path.Some? ==> SafePath(e.path.value)
  }

  /** Files without such an index, and with fewer events than an element counter can take. */
  predicate SafeWorld(w: World) {
    forall name :: name in w.files ==> |w.files[name]| < 0xffff_fff0 && forall e :: e in w.files[name] ==> SafeEvent(e)
  }

  /** `getopt_long` returns characters of the table, with an argument where one is required. */
  predicate FromGetopt(cmap: seq<MapEntry>, opts: seq<Opt>) {
    forall o :: o in opts ==>
      && o.c < TABLE_SIZE
      && match FindShort(cmap, o.c)
         case Some(i) => (Arity(cmap[i].kind) == 1 ==> o.arg.Some?)
         case None => true
  }

  // ----- shared pieces

  /** `sconf_set_str` and its siblings. */
  method SetTo(config: Config, path: string, v: Scalar) returns (ok: bool)
    requires config.Valid() && WellFormed(config.ledger.tree) && SafePath(path)
    modifies config`ledger, config`live, config.ledger.owner.Keys
    ensures config.Valid() && config.root == old(config.root)
    ensures fresh(config.ledger.owner.Keys - old(config.ledger).owner.Keys)
    ensures Keeps(old(config.ledger).at, config.ledger.at)
    ensures Merged(ok, config.ledger.tree) == SetScalar(old(config.ledger.tree), path, v)
  {
    hide Linked, Owned, NoLeak, Config.Valid, SetPath, SafePath;
    ok := Set(config, path, Some(Leaf(v)));
  }

  /** `sconf_yaml_read` with a file name. */
  method LoadFile(config: Config, name: string, w: World) returns (ok: bool)
    requires config.Valid() && WellFormed(config.ledger.tree) && SafeWorld(w)
    modifies config`ledger, config`live, config.ledger.owner.Keys
    ensures config.Valid() && config.root == old(config.root)
    ensures fresh(config.ledger.owner.Keys - old(config.ledger).owner.Keys)
    ensures Keeps(old(config.ledger).at, config.ledger.at)
    ensures Merged(ok, config.ledger.tree) == ReadFile(old(config.ledger.tree), name, w)
  {
    hide Linked, Owned, NoLeak, Config.Valid, Read, SafeEvent;
    if name !in w.files {
      return false;
    }
    var returnCode := ReadEvents(config, w.files[name], w.strtod);
    return returnCode == 0;
  }

  /** The conversion and the set that the handlers of options, variables and defaults share. */
  method ProvideText(config: Config, kind: EntryType, path: string, text: string, w: World) returns (ok: bool)
    requires config.Valid() && WellFormed(config.ledger.tree) && SafePath(path) && SafeWorld(w)
    modifies config`ledger, config`live, config.ledger.owner.Keys
    ensures config.Valid() && config.root == old(config.root)
    ensures fresh(config.ledger.owner.Keys - old(config.ledger).owner.Keys)
    ensures Keeps(old(config.ledger).at, config.ledger.at)
    ensures Merged(ok, config.ledger.tree) == Provide(old(config.ledger.tree), kind, path, text, w)
  {
    hide Linked, Owned, NoLeak, Config.Valid, ReadFile, SetScalar, SafePath, SafeWorld, WellFormed, Grows;
    match kind {
      case StrEntry =>
        ok := SetTo(config, path, Str(text));
      case IntEntry =>
        var integer := StringToInteger(text);
        if !integer.Integer? {
          return false;
        }
        ok := SetTo(config, path, Int(integer.value));
      case FloatEntry =>
        var fp := w.strtod(text);
        if !fp.FloatBits? {
          return false;
        }
        ok := SetTo(config, path, Float(fp.bits));
      case BoolEntry =>
        var boolean := StringToBool(text);
        if boolean.None? {
          return false;
        }
        ok := SetTo(config, path, Bool(boolean.value));
      case YamlFileEntry =>
        ok := LoadFile(config, text, w);
        if ok {
          ok := SetTo(config, path, Str(text));
        }
      case UsageEntry | OtherEntry =>
        return false;
    }
  }

  /** After one more source; a failure there is the failure of the whole loop. */
  lemma SourceNext(t: Tree, cmap: seq<MapEntry>, sources: seq<Source>, n: nat, w: World)
    requires WellFormed(t) && n < |sources| && ApplyAll(t, cmap, sources[..n], w).ok
    ensures var t' := ApplyAll(t, cmap, sources[..n], w).tree;
      && WellFormed(t')
      && ApplyAll(t, cmap, sources[..n + 1], w) == Apply(t', cmap, sources[n], w)
      && (!Apply(t', cmap, sources[n], w).ok ==> ApplyAll(t, cmap, sources, w) == Apply(t', cmap, sources[n], w))
  {
    hide Apply, Grows;
    assert sources[..n + 1][..n] == sources[..n];
    assert sources == sources[..n + 1] + sources[n + 1..];
    ApplyConcat(t, cmap, sources[..n + 1], sources[n + 1..], w);
  }

  lemma NothingApplied(t: Tree, cmap: seq<MapEntry>, sources: seq<Source>, w: World)
    requires WellFormed(t)
    ensures ApplyAll(t, cmap, sources[..0], w) == Merged(true, t)
    ensures sources[..|sources|] == sources
  {}

  // ----- environment

  /** One round of the loop in `sconf_env_read`. */
  method ReadVariable(config: Config, entry: MapEntry, w: World) returns (ok: bool)
    requires config.Valid() && WellFormed(config.ledger.tree) && SafeWorld(w)
    requires entry.path.Some? ==> SafePath(entry.path.value)
    modifies config`ledger, config`live, config.ledger.owner.Keys
    ensures config.Valid() && config.root == old(config.root)
    ensures fresh(config.ledger.owner.Keys - old(config.ledger).owner.Keys)
    ensures Keeps(old(config.ledger).at, config.ledger.at)
    ensures Merged(ok, config.ledger.tree) == EnvStep(old(config.ledger.tree), entry, w)
  {
    hide Linked, Owned, NoLeak, Config.Valid, Provide, SafePath, SafeWorld, WellFormed, Grows;
    if entry.env.None? {
      return true;
    }
    if entry.path.None? {
      return false;
    }
    if entry.env.value !in w.env {
      return true;
    }
    ok := ProvideText(config, entry.kind, entry.path.value, w.env[entry.env.value], w);
  }

  /** `sconf_env_read`. */
  method EnvRead(config: Config, cmap: seq<MapEntry>, w: World) returns (ok: bool)
    requires config.Valid() && WellFormed(config.ledger.tree) && SafeMap(cmap) && SafeWorld(w)
    modifies config`ledger, config`live, config.ledger.owner.Keys
    ensures config.Valid() && config.root == old(config.root)
    ensures fresh(config.ledger.owner.Keys - old(config.ledger).owner.Keys)
    ensures Keeps(old(config.ledger).at, config.ledger.at)
    ensures Merged(ok, config.ledger.tree) == ReadEnv(old(config.ledger.tree), cmap, w)
  {
    hide Linked, Owned, NoLeak, Config.Valid, EnvStep, SafePath, SafeWorld, WellFormed, Grows, ApplyAll;
    ghost var t := config.ledger.tree;
    ghost var sources := EnvSources(|cmap|);
    NothingApplied(t, cmap, sources, w);
    var n := 0;
    while n < |cmap|
      invariant n <= |cmap|
      invariant config.Valid() && config.root == old(config.root)
      invariant fresh(config.ledger.owner.Keys - old(config.ledger).owner.Keys)
      invariant Keeps(old(config.ledger).at, config.ledger.at)
      invariant ApplyAll(t, cmap, sources[..n], w) == Merged(true, config.ledger.tree)
    {
      SourceNext(t, cmap, sources, n, w);
      var entry := cmap[n];
      ok := ReadVariable(config, entry, w);
      if !ok {
        return false;
      }
      n := n + 1;
    }
    return true;
  }

  // ----- defaults

  /** One round of the loop in `sconf_defaults`. */
  method ApplyDefault(config: Config, entry: MapEntry, w: World) returns (ok: bool)
    requires config.Valid() && WellFormed(config.ledger.tree) && SafeWorld(w)
    requires entry.path.Some? ==> SafePath(entry.path.value)
    modifies config`ledger, config`live, config.ledger.owner.Keys
    ensures config.Valid() && config.root == old(config.root)
    ensures fresh(config.ledger.owner.Keys - old(config.ledger).owner.Keys)
    ensures Keeps(old(config.ledger).at, config.ledger.at)
    ensures Merged(ok, config.ledger.tree) == DefaultStep(old(config.ledger.tree), entry, w)
  {
    hide Linked, Owned, NoLeak, Config.Valid, Provide, GetPath, SafePath, SafeWorld, Grows;
    if entry.default.None? {
      return true;
    }
    if entry.path.None? || entry.kind.UsageEntry? || entry.kind.OtherEntry? {
      return false;
    }
    var r, node := Get(config, entry.path.value);
    if r == -1 {
      return false;
    }
    if r == 1 {
      TypeOfNode(config, GetPath(config.ledger.tree, entry.path.value).at);
      return (entry.kind.StrEntry? || entry.kind.YamlFileEntry?) ==> node.value.HasType(Leaf(Str("")));
    }
    ok := ProvideText(config, entry.kind, entry.path.value, entry.default.value, w);
  }

  lemma TypeOfNode(config: Config, c: Addr)
    requires config.Valid() && c in config.ledger.at
    ensures c in config.ledger.tree && config.ledger.tree[c] == config.ledger.at[c].Shape()
  {
    hide NoLeak, Links;
    TreeKeys(config.ledger, c);
  }

  /** `sconf_defaults`. */
  method Defaults(config: Config, cmap: seq<MapEntry>, w: World) returns (ok: bool)
    requires config.Valid() && WellFormed(config.ledger.tree) && SafeMap(cmap) && SafeWorld(w)
    modifies config`ledger, config`live, config.ledger.owner.Keys
    ensures config.Valid() && config.root == old(config.root)
    ensures fresh(config.ledger.owner.Keys - old(config.ledger).owner.Keys)
    ensures Keeps(old(config.ledger).at, config.ledger.at)
    ensures Merged(ok, config.ledger.tree) == ApplyDefaults(old(config.ledger.tree), cmap, w)
  {
    hide Linked, Owned, NoLeak, Config.Valid, DefaultStep, SafePath, SafeWorld, WellFormed, Grows, ApplyAll;
    ghost var t := config.ledger.tree;
    ghost var sources := DefaultSources(|cmap|);
    NothingApplied(t, cmap, sources, w);
    var n := 0;
    while n < |cmap|
      invariant n <= |cmap|
      invariant config.Valid() && config.root == old(config.root)
      invariant fresh(config.ledger.owner.Keys - old(config.ledger).owner.Keys)
      invariant Keeps(old(config.ledger).at, config.ledger.at)
      invariant ApplyAll(t, cmap, sources[..n], w) == Merged(true, config.ledger.tree)
    {
      SourceNext(t, cmap, sources, n, w);
      var entry := cmap[n];
      ok := ApplyDefault(config, entry, w);
      if !ok {
        return false;
      }
      n := n + 1;
    }
    return true;
  }

  // ----- command line

  /** `sconf_opts_handle_option`. */
  method HandleOpt(config: Config, entry: MapEntry, value: Option<string>, w: World) returns (ok: bool)
    requires config.Valid() && WellFormed(config.ledger.tree) && SafeWorld(w)
    requires entry.path.Some? ==> SafePath(entry.path.value)
    requires entry.path.Some? || entry.kind.UsageEntry?
    requires Arity(entry.kind) == 1 ==> value.Some?
    modifies config`ledger, config`live, config.ledger.owner.Keys
    ensures config.Valid() && config.root == old(config.root)
    ensures fresh(config.ledger.owner.Keys - old(config.ledger).owner.Keys)
    ensures Keeps(old(config.ledger).at, config.ledger.at)
    ensures Merged(ok, config.ledger.tree) == HandleOption(old(config.ledger.tree), entry, value, w)
  {
    hide Linked, Owned, NoLeak, Config.Valid, SetScalar, SafePath, SafeWorld, WellFormed, Grows;
    if entry.kind.UsageEntry? {
      return w.usage;
    }
    if entry.kind.BoolEntry? && value.None? {
      ok := SetTo(config, entry.path.value, Bool(true));
    } else if entry.kind.OtherEntry? {
      return false;
    } else {
      ok := ProvideText(config, entry.kind, entry.path.value, value.value, w);
    }
  }

  lemma IndexFinds(cmap: seq<MapEntry>, index: seq<Option<nat>>, c: nat)
    requires Accepted(cmap) && Indexes(index, cmap) && c < TABLE_SIZE
    ensures |index| == TABLE_SIZE && index[c] == FindShort(cmap, c)
    ensures index[c].Some? ==> (
      index[c].value < |cmap| && (cmap[index[c].value].path.Some? || cmap[index[c].value].kind.UsageEntry?))
  {
    hide FindShort;
    var r := FindShort(cmap, c);
    if index[c].Some? {
      var i := index[c].value;
      assert cmap[i].optsShort == c != 0;
      assert r.Some? && cmap[r.value].optsShort == c;
    } else if r.Some? {
      assert cmap[r.value].optsShort == c;
    }
  }

  /** An option string with nothing behind the colon belongs to a map without short options. */
  lemma {:induction false} OptTextStart(cmap: seq<MapEntry>)
    ensures OptText(cmap) != "" ==> OptText(cmap)[0] != '\0'
    decreases |cmap|
  {
    if cmap != [] {
      OptTextStart(cmap[..|cmap| - 1]);
    }
  }

  /** The loop over the results of `getopt_long`. */
  method OptLoop(config: Config, cmap: seq<MapEntry>, index: array<Option<nat>>, opts: seq<Opt>, w: World)
    returns (ok: bool)
    requires config.Valid() && WellFormed(config.ledger.tree) && SafeMap(cmap) && SafeWorld(w) && FromGetopt(cmap, opts)
    requires index !in config.ledger.owner && Accepted(cmap) && Indexes(index[..], cmap)
    modifies config`ledger, config`live, config.ledger.owner.Keys
    ensures config.Valid() && config.root == old(config.root)
    ensures fresh(config.ledger.owner.Keys - old(config.ledger).owner.Keys)
    ensures Keeps(old(config.ledger).at, config.ledger.at)
    ensures Merged(ok, config.ledger.tree) == ApplyAll(old(config.ledger.tree), cmap, OptionSources(opts), w)
  {
    hide Linked, Owned, NoLeak, Config.Valid, HandleOption, SafePath;
    hide SafeWorld, WellFormed, Grows, Accepted, Indexes, FindShort, ApplyAll;
    ghost var t := config.ledger.tree;
    ghost var sources := OptionSources(opts);
    NothingApplied(t, cmap, sources, w);
    var n := 0;
    while n < |opts|
      invariant n <= |opts|
      invariant config.Valid() && config.root == old(config.root)
      invariant fresh(config.ledger.owner.Keys - old(config.ledger).owner.Keys)
      invariant Keeps(old(config.ledger).at, config.ledger.at)
      invariant index[..] == old(index[..])
      invariant ApplyAll(t, cmap, sources[..n], w) == Merged(true, config.ledger.tree)
    {
      SourceNext(t, cmap, sources, n, w);
      var c := opts[n].c;
      assert opts[n] in opts;
      if c == ':' as nat || c == '?' as nat {
        return false;
      }
      IndexFinds(cmap, index[..], c);
      var found := index[c];
      if found.None? {
        return false;
      }
      var entry := cmap[found.value];
      assert entry in cmap;
      ok := HandleOpt(config, entry, opts[n].arg, w);
      if !ok {
        return false;
      }
      n := n + 1;
    }
    return true;
  }

  /** `sconf_opts_parse`. */
  method OptsParse(config: Config, cmap: seq<MapEntry>, line: CommandLine, w: World) returns (ok: bool)
    requires config.Valid() && WellFormed(config.ledger.tree) && SafeMap(cmap) && SafeWorld(w)
    requires FromGetopt(cmap, line.opts)
    modifies config`ledger, config`live, config.ledger.owner.Keys
    ensures config.Valid() && config.root == old(config.root)
    ensures fresh(config.ledger.owner.Keys - old(config.ledger).owner.Keys)
    ensures Keeps(old(config.ledger).at, config.ledger.at)
    ensures Merged(ok, config.ledger.tree) == ParseOpts(old(config.ledger.tree), cmap, line, w)
  {
    hide Linked, Owned, NoLeak, Config.Valid, SafeMap, SafeWorld, FromGetopt, ShortsFit, LongsFit, GroupsFit, TellsAll;
    hide WellFormed, Grows, Accepted, Indexes, LongsUsable, OptionTables.HasRoom, ApplyAll;
    if !line.present {
      return true;
    }
    var index := new Option<nat>[TABLE_SIZE](_ => None);
    ok := CreateIndex(cmap, index);
    if !ok {
      return false;
    }
    var longOpts := new LongOpt[TABLE_SIZE](_ => ZERO_OPT);
    var r := CreateLongOpts(cmap, longOpts);
    if r != LongOk {
      return false;
    }
    var optstring := new char[OPTSTRING_SIZE](_ => '\0');
    ok := CreateOptstring(cmap, optstring);
    if !ok {
      return false;
    }
    OptTextStart(cmap);
    assert optstring[..1 + |OptText(cmap)|][1..] == OptText(cmap);
    if optstring[1] == '\0' {
      return true;
    }
    ok := OptLoop(config, cmap, index, line.opts, w);
    if !ok {
      return false;
    }
    return !line.trailing;
  }

  /** `sconf_initialize`; `valid` is the verdict of the validators. */
  method InitializeConfig(config: Config, cmap: seq<MapEntry>, line: CommandLine, valid: bool, w: World)
    returns (ok: bool)
    requires config.Valid() && WellFormed(config.ledger.tree) && SafeMap(cmap) && SafeWorld(w)
    requires FromGetopt(cmap, line.opts)
    modifies config`ledger, config`live, config.ledger.owner.Keys
    ensures config.Valid() && config.root == old(config.root)
    ensures fresh(config.ledger.owner.Keys - old(config.ledger).owner.Keys)
    ensures Keeps(old(config.ledger).at, config.ledger.at)
    ensures Merged(ok, config.ledger.tree) == Initialize(old(config.ledger.tree), cmap, line, valid, w)
  {
    hide Linked, Owned, NoLeak, Config.Valid, SafeMap, SafeWorld;
    hide FromGetopt, WellFormed, Grows, ParseOpts, ReadEnv, ApplyDefaults;
    ok := OptsParse(config, cmap, line, w);
    if !ok {
      return false;
    }
    ok := EnvRead(config, cmap, w);
    if !ok {
      return false;
    }
    ok := Defaults(config, cmap, w);
    if !ok {
      return false;
    }
    return valid;
  }
}
