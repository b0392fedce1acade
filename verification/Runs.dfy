/**
 * Whole runs: any interleaving of sets, YAML reads, options, variables and defaults, failures
 * included, and the destruction of the tree at the end.
 */
module Runs {

  import opened Basics
  import opened ConfigMap
  import opened ConfigTree
  import opened PathSpec
  import opened PathLaws
  import opened Yaml
  import opened YamlDocs
  import opened Nodes
  import opened Configs
  import opened Teardown
  import opened Insertion
  import opened Paths
  import opened YamlReader
  import opened Layers
  import opened Startup

  /** One call on a configuration. */
  datatype Call =
    | SetCall(path: string, request: Option<Entry>)
    | ReadCall(events: seq<Event>)
    | OptsCall(cmap: seq<MapEntry>, line: CommandLine)
    | EnvCall(cmap: seq<MapEntry>)
    | DefaultsCall(cmap: seq<MapEntry>)

  /** The tree after a call, successful or not. */
  ghost function After(t: Tree, call: Call, w: World): (t': Tree)
    requires WellFormed(t)
    ensures Grows(t, t') && WellFormed(t')
  {
    match call
    case SetCall(path, request) =>
      SetKeeps(t, path, request);
      SetPath(t, path, request).tree
    case ReadCall(es) =>
      ReadGrows(t, es, w.strtod);
      Read(t, es, w.strtod).tree
    case OptsCall(cmap, line) => ParseOpts(t, cmap, line, w).tree
    case EnvCall(cmap) => ReadEnv(t, cmap, w).tree
    case DefaultsCall(cmap) => ApplyDefaults(t, cmap, w).tree
  }

  ghost function AfterAll(t: Tree, calls: seq<Call>, w: World): (t': Tree)
    requires WellFormed(t)
    ensures Grows(t, t') && WellFormed(t')
  {
    if calls == [] then t
    else
      var t1 := AfterAll(t, calls[..|calls| - 1], w);
      var t2 := After(t1, calls[|calls| - 1], w);
      ExtendsTransitive(t, t1, t2);
      t2
  }

  /** No call of any run loses an entry or changes its type. */
  lemma {:induction false} TypesAreStable(t: Tree, calls: seq<Call>, k: nat, w: World, a: Addr)
    requires WellFormed(t) && k <= |calls| && a in AfterAll(t, calls[..k], w)
    ensures a in AfterAll(t, calls, w)
    ensures TypeOf(AfterAll(t, calls, w)[a]) == TypeOf(AfterAll(t, calls[..k], w)[a])
    decreases |calls| - k
  {
    if k == |calls| {
      assert calls[..k] == calls;
    } else {
      hide After;
      assert calls[..k + 1][..k] == calls[..k];
      TypesAreStable(t, calls, k + 1, w, a);
    }
  }

  /** From an empty root, no run ever puts a node more than 19 edges below the root. */
  lemma HeightIsBounded(root: Entry, calls: seq<Call>, w: World, a: Addr)
    ensures WellFormed(map[[] := root])
    ensures a in AfterAll(map[[] := root], calls, w) ==> |a| <= MAX_DEPTH - 1
  {
    var t: Tree := map[[] := root];
    assert forall a: Addr, s: Seg :: a + [s] != [];
    assert Bounded(t);
  }

  // ----- on the heap

  /** What the C code takes for granted of a call. */
  predicate SafeCall(call: Call) {
    match call
    case SetCall(path, _) => SafePath(path)
    case ReadCall(es) => |es| < 0xffff_fff0 && forall e :: e in es ==> SafeEvent(e)
    case OptsCall(cmap, line) => SafeMap(cmap) && FromGetopt(cmap, line.opts)
    case EnvCall(cmap) => SafeMap(cmap)
    case DefaultsCall(cmap) => SafeMap(cmap)
  }

  /** One call. Its result, success or failure, is for the caller. */
  method Do(config: Config, call: Call, w: World) returns (ok: bool)
    requires config.Valid() && WellFormed(config.ledger.tree) && SafeCall(call) && SafeWorld(w)
    modifies config`ledger, config`live, config.ledger.owner.Keys
    ensures config.Valid() && config.root == old(config.root)
    ensures fresh(config.ledger.owner.Keys - old(config.ledger).owner.Keys)
    ensures Keeps(old(config.ledger).at, config.ledger.at)
    ensures config.ledger.tree == After(old(config.ledger.tree), call, w)
  {
    hide Linked, Owned, NoLeak, Config.Valid, SetPath, Read, ParseOpts, ReadEnv, ApplyDefaults;
    hide SafePath, SafeEvent, SafeMap, SafeWorld, FromGetopt, WellFormed, Grows;
    match call {
      case SetCall(path, request) =>
        ok := Set(config, path, request);
      case ReadCall(es) =>
        var returnCode := ReadEvents(config, es, w.strtod);
        ok := returnCode == 0;
      case OptsCall(cmap, line) =>
        ok := OptsParse(config, cmap, line, w);
      case EnvCall(cmap) =>
        ok := EnvRead(config, cmap, w);
      case DefaultsCall(cmap) =>
        ok := Defaults(config, cmap, w);
    }
  }

  /**
   * Any number of calls. What is allocated is what is reachable, no node has two parents, and each
   * node that was there is still the node at its address.
   */
  method DoAll(config: Config, calls: seq<Call>, w: World)
    requires config.Valid() && WellFormed(config.ledger.tree) && SafeWorld(w)
    requires forall call :: call in calls ==> SafeCall(call)
    modifies config`ledger, config`live, config.ledger.owner.Keys
    ensures config.Valid() && config.root == old(config.root)
    ensures fresh(config.ledger.owner.Keys - old(config.ledger).owner.Keys)
    ensures Keeps(old(config.ledger).at, config.ledger.at)
    ensures config.ledger.tree == AfterAll(old(config.ledger.tree), calls, w)
  {
    hide Linked, Owned, NoLeak, Config.Valid, After, SafeCall, SafeWorld, WellFormed, Grows;
    var n := 0;
    while n < |calls|
      invariant n <= |calls|
      invariant config.Valid() && config.root == old(config.root)
      invariant fresh(config.ledger.owner.Keys - old(config.ledger).owner.Keys)
      invariant Keeps(old(config.ledger).at, config.ledger.at)
      invariant config.ledger.tree == AfterAll(old(config.ledger.tree), calls[..n], w)
    {
      assert calls[..n + 1][..n] == calls[..n];
      var _ := Do(config, calls[n], w);
      n := n + 1;
    }
    assert calls[..n] == calls;
  }

  // ----- the end of a run

  /** Addresses in a finite tree are no longer than some number. */
  lemma Longest(addrs: set<Addr>) returns (m: nat)
    ensures forall a :: a in addrs ==> |a| <= m
    decreases |addrs|
  {
    if addrs == {} {
      m := 0;
    } else {
      var a :| a in addrs;
      m := Longest(addrs - {a});
      if m < |a| {
        m := |a|;
      }
    }
  }

  lemma AllBelowRoot(l: Ledger, live: set<Node>)
    requires NoLeak(l, live)
    ensures Subtree(l, []) == live
  {
    assert forall b: Addr :: b[..0] == [];
    forall n | n in live
      ensures n in Subtree(l, [])
    {
      assert l.owner[n] in l.at;
    }
  }

  /** `sconf_node_destroy` on the root: it terminates, and no node is left or freed twice. */
  method DestroyRoot(config: Config)
    requires config.Valid()
    modifies config`live
    ensures config.live == {}
  {
    hide Linked, Owned, Subtree;
    RootPresent(config);
    AllBelowRoot(config.ledger, config.live);
    ghost var m := Longest(config.ledger.at.Keys);
    Destroy(config, config.root, config.ledger, [], m);
  }

  /** A whole run: a new root, any calls, and the end. */
  method WholeRun(root: Entry, calls: seq<Call>, w: World) returns (config: Config)
    requires SafeWorld(w) && forall call :: call in calls ==> SafeCall(call)
    ensures config.live == {} && WellFormed(map[[] := root])
    ensures config.ledger.tree == AfterAll(map[[] := root], calls, w)
    ensures Bounded(config.ledger.tree)
  {
    hide Linked, Owned, NoLeak, AfterAll, SafeCall, SafeWorld;
    HeightIsBounded(root, [], w, []);
    config := new Config(root);
    DoAll(config, calls, w);
    forall a | a in config.ledger.tree
      ensures |a| <= MAX_DEPTH - 1
    {
      HeightIsBounded(root, calls, w, a);
    }
    DestroyRoot(config);
  }
}
