/**
 * What a run of the layers writes, once and again. Every source, files included, puts entries over the
 * tree that do not depend on it; only a default is left out when get finds its path. So the result is
 * the starting tree with these entries over it, later sources taking precedence. In a second run,
 * options, variables, and defaults that get cannot see are applied again, and no others: it ends in the
 * same tree unless a default file has replaced, in the first run, a value that is applied again.
 */
module Replays {

  import opened Basics
  import opened CText
  import opened Convert
  import opened ConfigMap
  import opened ConfigTree
  import opened PathSpec
  import opened PathLaws
  import opened Yaml
  import opened YamlDocs
  import opened YamlOverlay
  import opened Layers
  import opened DefaultLaws
  import opened Precedence
  import opened Success

  lemma SameRoot(t: Tree, u: Tree)
    requires [] in t && !t[[]].Leaf? && Extends(t, u)
    ensures [] in u && u[[]] == t[[]]
  {
    assert TypeOf(u[[]]) == TypeOf(t[[]]);
  }

  /** What a set has once built, later writers leave in place, so that the set can be repeated. */
  lemma SettableLater(t: Tree, n: Addr, v: Scalar, u: Tree)
    requires n != [] && Settable(t, n, 0, Leaf(v)) && Extends(Grafted(t, n, 1, Leaf(v)), u)
    ensures Settable(u, n, 0, Leaf(v))
    ensures forall j :: 0 < j <= |n| ==> n[..j] in u
    ensures n in u && TypeOf(u[n]) == TypeOf(Leaf(v))
  {
    hide Grafted;
    assert n[..|n|] == n;
    forall j | 0 < j <= |n|
      ensures n[..j] in u && Admits(u, n[..j], if j < |n| then KindOf(n[j]) else Leaf(v))
    {
      GraftedEntries(t, n, Leaf(v), n[..j]);
      GraftedEntries(t, n, Leaf(v), n);
      assert Admits(t, n[..j], if j < |n| then KindOf(n[j]) else Leaf(v));
      assert TypeOf(u[n[..j]]) == TypeOf(Grafted(t, n, 1, Leaf(v))[n[..j]]);
    }
  }

  lemma GraftedInPlace(u: Tree, n: Addr, v: Scalar)
    requires n != [] && Settable(u, n, 0, Leaf(v)) && forall j :: 0 < j <= |n| ==> n[..j] in u
    ensures Grafted(u, n, 1, Leaf(v)) == u[n := Leaf(v)]
  {
    hide Grafted, Settable;
    forall p
      ensures p in Grafted(u, n, 1, Leaf(v)) <==> p in u || p == n
      ensures p in u && p != n ==> Grafted(u, n, 1, Leaf(v))[p] == u[p]
    {
      GraftedEntries(u, n, Leaf(v), p);
    }
    GraftedEntries(u, n, Leaf(v), n);
  }

  /** A set that has succeeded once succeeds on every later tree, and changes one scalar there. */
  lemma SetRepeats(t: Tree, path: string, v: Scalar, u: Tree)
    requires WellFormed(t) && WellFormed(u) && SetScalar(t, path, v).ok && Extends(SetScalar(t, path, v).tree, u)
    ensures var n := Address(t[[]], Tokens(path));
      && n.Some? && n.value in u && TypeOf(u[n.value]) == TypeOf(Leaf(v))
      && SetScalar(u, path, v) == Merged(true, u[n.value := Leaf(v)])
  {
    hide SetTokens, Settable, Grafted, Tokens, Address;
    var toks := Tokens(path);
    SetWrites(t, toks, Leaf(v));
    var n := Address(t[[]], toks).value;
    ExtendsTransitive(t, SetScalar(t, path, v).tree, u);
    AddressNeedsContainer(t[[]], toks);
    SameRoot(t, u);
    SettableLater(t, n, v, u);
    SetSucceedsExactly(u, toks, Leaf(v));
    SetWrites(u, toks, Leaf(v));
    GraftedInPlace(u, n, v);
  }

  // ----- what is written

  /** The entries that setting a scalar writes: the containers on its way, and the scalar. */
  ghost function SetLog(n: Addr, v: Scalar): Tree {
    Spine(n, 1)[n := Leaf(v)]
  }

  /** A scalar that has been set is set again, and puts the same entries over any later tree. */
  lemma ScalarAgain(t: Tree, path: string, v: Scalar, u: Tree)
    requires WellFormed(t) && WellFormed(u) && SetScalar(t, path, v).ok && Extends(SetScalar(t, path, v).tree, u)
    ensures var n := Address(t[[]], Tokens(path));
      && n.Some? && n == Address(u[[]], Tokens(path))
      && SetScalar(t, path, v).tree == t + SetLog(n.value, v)
      && SetScalar(u, path, v) == Merged(true, u + SetLog(n.value, v))
  {
    hide SetTokens, Tokens, Address, Spine, Settable;
    SetRepeats(t, path, v, u);
    SetWrites(t, Tokens(path), Leaf(v));
    SetWrites(u, Tokens(path), Leaf(v));
    var n := Address(t[[]], Tokens(path)).value;
    AddressNeedsContainer(t[[]], Tokens(path));
    ExtendsTransitive(t, SetScalar(t, path, v).tree, u);
    SameRoot(t, u);
    assert (t + Spine(n, 1))[n := Leaf(v)] == t + SetLog(n, v);
    assert (u + Spine(n, 1))[n := Leaf(v)] == u + SetLog(n, v);
  }

  /** Events that have been read are read again on every later tree, and write the same there. */
  lemma EventsAgain(t: Tree, es: seq<Event>, strtod: Strtod, u: Tree)
    requires WellFormed(t) && WellFormed(u) && !t[[]].Leaf?
    requires Read(t, es, strtod).ok && Extends(Read(t, es, strtod).tree, u)
    ensures var log := Written(t[[]], es, strtod).tree;
      && Read(t, es, strtod).tree == t + log
      && Read(u, es, strtod) == Merged(true, u + log)
  {
    hide Read, Written;
    var t' := Read(t, es, strtod).tree;
    ReadGrows(t, es, strtod);
    ExtendsTransitive(t, t', u);
    SameRoot(t, u);
    ReadOverlays(t, es, strtod);
    ReadsAgain(t, es, strtod, u);
  }

  // ----- one source

  /** The address that an entry's path stands for. */
  function EntryAddress(root: Entry, e: MapEntry): Option<Addr> {
    if e.path.Some? then Address(root, Tokens(e.path.value)) else None
  }

  /** The entries that are written for a value: those of a file, and the value itself. */
  ghost function ValueLog(root: Entry, e: MapEntry, v: Scalar, w: World): Tree {
    var file := if e.kind.YamlFileEntry? && v.Str? && v.text in w.files
                then Written(root, w.files[v.text], w.strtod).tree else map[];
    var n := EntryAddress(root, e);
    if n.Some? then file + SetLog(n.value, v) else file
  }

  /** A file or a text that has been provided is provided again on every later tree, and writes the same there. */
  lemma ProvidesAgain(t: Tree, e: MapEntry, text: string, w: World, u: Tree)
    requires WellFormed(t) && WellFormed(u) && !t[[]].Leaf? && e.path.Some?
    requires Provide(t, e.kind, e.path.value, text, w).ok && Extends(Provide(t, e.kind, e.path.value, text, w).tree, u)
    ensures ValueFor(e.kind, text, w.strtod).Some?
    ensures var log := ValueLog(t[[]], e, ValueFor(e.kind, text, w.strtod).value, w);
      && Provide(t, e.kind, e.path.value, text, w).tree == t + log
      && Provide(u, e.kind, e.path.value, text, w) == Merged(true, u + log)
  {
    hide SetScalar, Read, Written, Address, Tokens, Extends, SetLog;
    var path, v := e.path.value, ValueFor(e.kind, text, w.strtod).value;
    if e.kind.YamlFileEntry? {
      var file := Written(t[[]], w.files[text], w.strtod).tree;
      var t1 := Read(t, w.files[text], w.strtod).tree;
      var t2 := SetScalar(t1, path, v).tree;
      ReadGrows(t, w.files[text], w.strtod);
      ExtendsTransitive(t1, t2, u);
      EventsAgain(t, w.files[text], w.strtod, u);
      ReadGrows(u, w.files[text], w.strtod);
      SameRoot(t, t1);
      ExtendsTransitive(t2, u, u + file);
      ScalarAgain(t1, path, v, u + file);
      LogsJoin(t, file, SetLog(Address(t[[]], Tokens(path)).value, v));
      LogsJoin(u, file, SetLog(Address(t[[]], Tokens(path)).value, v));
    } else {
      ScalarAgain(t, path, v, u);
      NothingFirst(SetLog(Address(t[[]], Tokens(path)).value, v));
    }
  }

  lemma LogsJoin(u: Tree, log: Tree, log': Tree)
    ensures u + log + log' == u + (log + log')
  {}

  lemma NothingFirst(log: Tree)
    ensures map[] + log == log
  {}

  // ----- sources, once and again

  /** A default on a path without a plain start: get never finds it, so that it is applied in every run. */
  predicate Blind(root: Entry, e: MapEntry) {
    e.path.Some? && !PlainStart(root, Tokens(e.path.value))
  }

  lemma BlindNotFound(t: Tree, path: string)
    requires [] in t && !PlainStart(t[[]], Tokens(path))
    ensures GetPath(t, path) == NotFound
  {}

  /** What a source offers in every run. */
  function Repeated(root: Entry, cmap: seq<MapEntry>, s: Source, w: World): (r: Option<Offered>)
    ensures r.Some? ==> r.value.entry < |cmap|
  {
    match s
    case FromDefault(i) =>
      if i < |cmap| && Blind(root, cmap[i]) && DefaultValue(cmap[i], w).Some?
      then Some(Offered(i, DefaultValue(cmap[i], w).value)) else None
    case _ => Offer(cmap, s, w)
  }

  /** What a source offers in a first run: a default only counts if get does not find its path. */
  function First(t: Tree, cmap: seq<MapEntry>, s: Source, w: World): (r: Option<Offered>)
    requires [] in t
    ensures r.Some? ==> r.value.entry < |cmap|
  {
    match s
    case FromDefault(i) =>
      if i < |cmap| && DefaultValue(cmap[i], w).Some?
         && cmap[i].path.Some? && GetPath(t, cmap[i].path.value) == NotFound
      then Some(Offered(i, DefaultValue(cmap[i], w).value)) else None
    case _ => Offer(cmap, s, w)
  }

  ghost function OfferLog(root: Entry, cmap: seq<MapEntry>, o: Option<Offered>, w: World): Tree
    requires o.Some? ==> o.value.entry < |cmap|
  {
    if o.Some? then ValueLog(root, cmap[o.value.entry], o.value.value, w) else map[]
  }

  /** A source has put the log over t, and puts it over u again. */
  ghost predicate WritesAgain(t: Tree, cmap: seq<MapEntry>, s: Source, w: World, log: Tree, u: Tree)
    requires WellFormed(t) && WellFormed(u)
  {
    Apply(t, cmap, s, w).tree == t + log && Apply(u, cmap, s, w) == Merged(true, u + log)
  }

  lemma NothingAgain(t: Tree)
    ensures t + map[] == t
  {}

  lemma OptionAgain(t: Tree, cmap: seq<MapEntry>, s: Source, w: World, u: Tree)
    requires WellFormed(t) && WellFormed(u) && !t[[]].Leaf? && s.FromOption?
    requires Apply(t, cmap, s, w).ok && Extends(Apply(t, cmap, s, w).tree, u)
    ensures WritesAgain(t, cmap, s, w, OfferLog(t[[]], cmap, Offer(cmap, s, w), w), u)
  {
    hide SetScalar, Provide, ValueFor, ValueLog, SetLog, Grows;
    NothingAgain(t);
    NothingAgain(u);
    var e := cmap[FindShort(cmap, s.opt.c).value];
    if !e.kind.UsageEntry? {
      if s.opt.arg.Some? {
        ProvidesAgain(t, e, s.opt.arg.value, w, u);
      } else {
        ScalarAgain(t, e.path.value, Bool(true), u);
        ScalarLog(t[[]], e, Bool(true), w);
      }
    }
  }

  lemma ScalarLog(root: Entry, e: MapEntry, v: Scalar, w: World)
    requires !e.kind.YamlFileEntry? && EntryAddress(root, e).Some?
    ensures ValueLog(root, e, v, w) == SetLog(EntryAddress(root, e).value, v)
  {
    hide SetLog;
    NothingFirst(SetLog(EntryAddress(root, e).value, v));
  }

  lemma VariableAgain(t: Tree, cmap: seq<MapEntry>, s: Source, w: World, u: Tree)
    requires WellFormed(t) && WellFormed(u) && !t[[]].Leaf? && s.FromEnv?
    requires Apply(t, cmap, s, w).ok && Extends(Apply(t, cmap, s, w).tree, u)
    ensures WritesAgain(t, cmap, s, w, OfferLog(t[[]], cmap, Offer(cmap, s, w), w), u)
  {
    hide SetScalar, Provide, ValueFor, ValueLog, Grows, WellFormed;
    NothingAgain(t);
    NothingAgain(u);
    if s.entry < |cmap| && cmap[s.entry].env.Some? && cmap[s.entry].env.value in w.env {
      ProvidesAgain(t, cmap[s.entry], w.env[cmap[s.entry].env.value], w, u);
    }
  }

  /** A default that get does not find is provided, and is provided again where get does not find it either. */
  lemma DefaultAgain(t: Tree, cmap: seq<MapEntry>, i: nat, w: World, u: Tree)
    requires WellFormed(t) && WellFormed(u) && !t[[]].Leaf? && i < |cmap| && cmap[i].default.Some?
    requires DefaultStep(t, cmap[i], w).ok && Extends(DefaultStep(t, cmap[i], w).tree, u)
    requires cmap[i].path.Some? ==> GetPath(t, cmap[i].path.value) == NotFound
    ensures cmap[i].path.Some? && DefaultValue(cmap[i], w).Some?
    ensures var log := ValueLog(t[[]], cmap[i], DefaultValue(cmap[i], w).value, w);
      && DefaultStep(t, cmap[i], w).tree == t + log
      && (GetPath(u, cmap[i].path.value) == NotFound ==> DefaultStep(u, cmap[i], w) == Merged(true, u + log))
  {
    hide Provide, GetPath, ValueFor, ValueLog, Grows;
    ProvidesAgain(t, cmap[i], cmap[i].default.value, w, u);
  }

  /** A default that get can find is settled after the first run. */
  lemma SeenAgain(t: Tree, cmap: seq<MapEntry>, i: nat, w: World, u: Tree)
    requires WellFormed(t) && WellFormed(u) && i < |cmap|
    requires cmap[i].default.Some? && cmap[i].path.Some? ==> PlainStart(t[[]], Tokens(cmap[i].path.value))
    requires DefaultStep(t, cmap[i], w).ok && Extends(DefaultStep(t, cmap[i], w).tree, u)
    ensures DefaultStep(u, cmap[i], w) == Merged(true, u)
  {
    hide DefaultStep, Settled, PlainStart, Tokens;
    DefaultStepSettles(t, cmap[i], w);
    SettledStays(DefaultStep(t, cmap[i], w).tree, u, cmap[i]);
    SettledStep(u, cmap[i], w);
  }

  /** Every source puts over a later tree what it offers in every run. */
  lemma AppliesAgain(t: Tree, cmap: seq<MapEntry>, s: Source, w: World, u: Tree)
    requires WellFormed(t) && WellFormed(u) && !t[[]].Leaf?
    requires Apply(t, cmap, s, w).ok && Extends(Apply(t, cmap, s, w).tree, u)
    ensures Apply(u, cmap, s, w) == Merged(true, u + OfferLog(t[[]], cmap, Repeated(t[[]], cmap, s, w), w))
  {
    match s {
      case FromOption(_) => OptionAgain(t, cmap, s, w, u);
      case FromEnv(_) => VariableAgain(t, cmap, s, w, u);
      case FromDefault(i) =>
        hide DefaultStep, PlainStart, Tokens, ValueLog, Grows, GetPath;
        NothingAgain(u);
        if i < |cmap| {
          NoDefaultIsNoValue(cmap[i], w);
          if cmap[i].default.Some? && Blind(t[[]], cmap[i]) {
            ExtendsTransitive(t, DefaultStep(t, cmap[i], w).tree, u);
            SameRoot(t, u);
            BlindNotFound(t, cmap[i].path.value);
            BlindNotFound(u, cmap[i].path.value);
            DefaultAgain(t, cmap, i, w, u);
          } else {
            SeenAgain(t, cmap, i, w, u);
          }
        }
    }
  }

  lemma NoDefaultIsNoValue(e: MapEntry, w: World)
    ensures e.default.None? ==> DefaultValue(e, w).None?
  {}

  /** Every source puts over the tree what it offers in a first run. */
  lemma AppliesFirst(t: Tree, cmap: seq<MapEntry>, s: Source, w: World)
    requires WellFormed(t) && !t[[]].Leaf? && Apply(t, cmap, s, w).ok
    ensures Apply(t, cmap, s, w).tree == t + OfferLog(t[[]], cmap, First(t, cmap, s, w), w)
  {
    var t' := Apply(t, cmap, s, w).tree;
    assert Extends(t', t');
    match s {
      case FromOption(_) => OptionAgain(t, cmap, s, w, t');
      case FromEnv(_) => VariableAgain(t, cmap, s, w, t');
      case FromDefault(i) =>
        hide Provide, ValueLog, Grows, GetPath, ValueFor;
        NothingAgain(t);
        if i < |cmap| && cmap[i].default.Some? && GetPath(t, cmap[i].path.value) == NotFound {
          DefaultAgain(t, cmap, i, w, t');
        }
    }
  }

  /** A default's path is only missing to get if its address is free; where get can follow it, exactly then. */
  lemma FirstByPresence(t: Tree, cmap: seq<MapEntry>, i: nat, w: World)
    requires WellFormed(t) && !t[[]].Leaf? && i < |cmap| && cmap[i].path.Some?
    requires DefaultValue(cmap[i], w).Some? && DefaultStep(t, cmap[i], w).ok
    requires PlainStart(t[[]], Tokens(cmap[i].path.value))
    ensures var n := EntryAddress(t[[]], cmap[i]);
      && (First(t, cmap, FromDefault(i), w).Some? ==> n.Some? && n.value !in t)
      && (Gettable(t, Tokens(cmap[i].path.value)) ==>
            n.Some? && (First(t, cmap, FromDefault(i), w).Some? <==> n.value !in t))
  {
    hide PlainStart, Tokens, ValueFor, GetTokens, Consistent, Provide;
    var e := cmap[i];
    var path := e.path.value;
    if GetPath(t, path) == NotFound {
      ProvidedIsAbsent(t, e, w);
    }
    if Gettable(t, Tokens(path)) {
      GetRefinesLookup(t, path);
    }
  }

  lemma ProvidedIsAbsent(t: Tree, e: MapEntry, w: World)
    requires WellFormed(t) && !t[[]].Leaf? && e.path.Some? && e.default.Some? && GetPath(t, e.path.value) == NotFound
    requires PlainStart(t[[]], Tokens(e.path.value)) && Provide(t, e.kind, e.path.value, e.default.value, w).ok
    ensures EntryAddress(t[[]], e).Some? && EntryAddress(t[[]], e).value !in t
  {
    hide Tokens, ReadFile, SetTokens, GetTokens, Address, Settable, Consistent;
    var path := e.path.value;
    var v := ValueFor(e.kind, e.default.value, w.strtod).value;
    var t1 := if e.kind.YamlFileEntry? then ReadFile(t, e.default.value, w).tree else t;
    assert Extends(t, t1);
    SameRoot(t, t1);
    SetWrites(t1, Tokens(path), Leaf(v));
    var n := Address(t[[]], Tokens(path)).value;
    if Tokens(path) == [] {
      NoTokens(t);
    } else {
      SettableIsConsistent(t1, n, Leaf(v));
      ConsistentBefore(t, t1, n);
      GetRefinesLookup(t, path);
    }
  }

  lemma NoTokens(t: Tree)
    requires WellFormed(t) && GetTokens(t, []) == NotFound
    ensures Address(t[[]], []) == Some([Idx(0)]) && [Idx(0)] !in t
  {}

  lemma ConsistentBefore(t: Tree, t1: Tree, n: Addr)
    requires Extends(t, t1) && Consistent(t1, n, 0)
    ensures Consistent(t, n, 0)
  {
    forall j | 0 < j < |n| && n[..j] in t && !t[n[..j]].Leaf?
      ensures t[n[..j]] == KindOf(n[j])
    {
      assert TypeOf(t1[n[..j]]) == TypeOf(t[n[..j]]);
    }
  }

  // ----- all sources

  /** What the sources write in every run, later ones taking precedence. */
  ghost function RepeatLog(root: Entry, cmap: seq<MapEntry>, sources: seq<Source>, w: World): Tree {
    if sources == [] then map[]
    else
      var k := |sources| - 1;
      RepeatLog(root, cmap, sources[..k], w) + OfferLog(root, cmap, Repeated(root, cmap, sources[k], w), w)
  }

  /** What they write in a first run. Whether get finds a path is asked of the starting tree and the log so far. */
  ghost function FirstLog(t: Tree, cmap: seq<MapEntry>, sources: seq<Source>, w: World): Tree
    requires [] in t
    decreases |sources|, 0
  {
    if sources == [] then map[]
    else
      var k := |sources| - 1;
      FirstLog(t, cmap, sources[..k], w) + StepLog(t, cmap, sources, k, w)
  }

  /** What source k writes in a first run. */
  ghost function StepLog(t: Tree, cmap: seq<MapEntry>, sources: seq<Source>, k: nat, w: World): Tree
    requires [] in t && k < |sources|
    decreases k, 1
  {
    OfferLog(t[[]], cmap, First(t + FirstLog(t, cmap, sources[..k], w), cmap, sources[k], w), w)
  }

  /** The last step of a run. */
  lemma LastStep(t: Tree, cmap: seq<MapEntry>, sources: seq<Source>, w: World)
    requires WellFormed(t) && !t[[]].Leaf? && sources != [] && ApplyAll(t, cmap, sources, w).ok
    ensures var k := |sources| - 1;
      var r := ApplyAll(t, cmap, sources[..k], w);
      && r.ok && WellFormed(r.tree) && r.tree[[]] == t[[]]
      && ApplyAll(t, cmap, sources, w) == Apply(r.tree, cmap, sources[k], w)
      && Extends(r.tree, ApplyAll(t, cmap, sources, w).tree)
  {
    hide Apply;
    SameRoot(t, ApplyAll(t, cmap, sources[..|sources| - 1], w).tree);
  }

  /** On any later tree a successful run succeeds again, and writes what it writes in every run. */
  lemma {:induction false} Replay(t: Tree, cmap: seq<MapEntry>, sources: seq<Source>, w: World, u: Tree)
    requires WellFormed(t) && !t[[]].Leaf? && ApplyAll(t, cmap, sources, w).ok
    requires WellFormed(u) && Extends(ApplyAll(t, cmap, sources, w).tree, u)
    ensures ApplyAll(u, cmap, sources, w) == Merged(true, u + RepeatLog(t[[]], cmap, sources, w))
    decreases |sources|
  {
    hide Apply, OfferLog, Repeated, Extends, Grows;
    if sources == [] {
      NothingAgain(u);
    } else {
      var k := |sources| - 1;
      LastStep(t, cmap, sources, w);
      var t1, t2 := ApplyAll(t, cmap, sources[..k], w).tree, ApplyAll(t, cmap, sources, w).tree;
      var log := RepeatLog(t[[]], cmap, sources[..k], w);
      ExtendsTransitive(t1, t2, u);
      Replay(t, cmap, sources[..k], w, u);
      GrowsExtends(u, ApplyAll(u, cmap, sources[..k], w).tree);
      ExtendsTransitive(t2, u, u + log);
      AppliesAgain(t1, cmap, sources[k], w, u + log);
      LogsJoin(u, log, OfferLog(t[[]], cmap, Repeated(t[[]], cmap, sources[k], w), w));
    }
  }

  lemma GrowsExtends(u: Tree, u': Tree)
    requires Grows(u, u')
    ensures Extends(u, u')
  {}

  /** A successful run puts its log over the tree, no more and no less. */
  lemma {:induction false} RunIsOverlay(t: Tree, cmap: seq<MapEntry>, sources: seq<Source>, w: World)
    requires WellFormed(t) && !t[[]].Leaf? && ApplyAll(t, cmap, sources, w).ok
    ensures ApplyAll(t, cmap, sources, w).tree == t + FirstLog(t, cmap, sources, w)
    decreases |sources|
  {
    hide Apply, OfferLog, First, Grows, Extends;
    if sources == [] {
      NothingAgain(t);
    } else {
      var k := |sources| - 1;
      LastStep(t, cmap, sources, w);
      RunIsOverlay(t, cmap, sources[..k], w);
      AppliesFirst(ApplyAll(t, cmap, sources[..k], w).tree, cmap, sources[k], w);
      LogsJoin(t, FirstLog(t, cmap, sources[..k], w), StepLog(t, cmap, sources, k, w));
    }
  }

  /** Source k writes at a, and none behind it does. */
  ghost predicate LastAt(t: Tree, cmap: seq<MapEntry>, sources: seq<Source>, w: World, a: Addr, k: nat)
    requires [] in t
  {
    && k < |sources| && a in StepLog(t, cmap, sources, k, w)
    && forall j :: k < j < |sources| ==> a !in StepLog(t, cmap, sources, j, w)
  }

  /** No source writes at a. */
  ghost predicate Unwritten(t: Tree, cmap: seq<MapEntry>, sources: seq<Source>, w: World, a: Addr)
    requires [] in t
  {
    forall k :: 0 <= k < |sources| ==> a !in StepLog(t, cmap, sources, k, w)
  }

  lemma StepBefore(t: Tree, cmap: seq<MapEntry>, sources: seq<Source>, n: nat, k: nat, w: World)
    requires [] in t && k < n <= |sources|
    ensures StepLog(t, cmap, sources[..n], k, w) == StepLog(t, cmap, sources, k, w)
  {
    assert sources[..n][..k] == sources[..k];
  }

  /** An entry of the log comes from the last source that writes at its address. */
  lemma {:induction false} LastWriter(t: Tree, cmap: seq<MapEntry>, sources: seq<Source>, w: World, a: Addr, k: nat)
    requires [] in t && LastAt(t, cmap, sources, w, a, k)
    ensures a in FirstLog(t, cmap, sources, w) && FirstLog(t, cmap, sources, w)[a] == StepLog(t, cmap, sources, k, w)[a]
    decreases |sources|
  {
    hide OfferLog, First, StepLog;
    var n := |sources| - 1;
    if k < n {
      forall j | 0 <= j < n
        ensures StepLog(t, cmap, sources[..n], j, w) == StepLog(t, cmap, sources, j, w)
      {
        StepBefore(t, cmap, sources, n, j, w);
      }
      LastWriter(t, cmap, sources[..n], w, a, k);
    }
  }

  /** The log has no entry where no source writes. */
  lemma {:induction false} NoWriter(t: Tree, cmap: seq<MapEntry>, sources: seq<Source>, w: World, a: Addr)
    requires [] in t && Unwritten(t, cmap, sources, w, a)
    ensures a !in FirstLog(t, cmap, sources, w)
    decreases |sources|
  {
    hide OfferLog, First, StepLog;
    if sources != [] {
      var n := |sources| - 1;
      forall k | 0 <= k < n
        ensures a !in StepLog(t, cmap, sources[..n], k, w)
      {
        StepBefore(t, cmap, sources, n, k, w);
      }
      NoWriter(t, cmap, sources[..n], w, a);
    }
  }

  // ----- the two logs

  /** A first run offers at least what every run offers. */
  lemma RepeatedFirst(t: Tree, cmap: seq<MapEntry>, s: Source, w: World)
    requires [] in t && Repeated(t[[]], cmap, s, w).Some?
    ensures First(t, cmap, s, w) == Repeated(t[[]], cmap, s, w)
  {
    hide Offer, PlainStart, Tokens, GetPath, DefaultValue;
    if s.FromDefault? {
      BlindNotFound(t, cmap[s.entry].path.value);
    }
  }

  lemma {:induction false} RepeatsAreFirst(t: Tree, cmap: seq<MapEntry>, sources: seq<Source>, w: World)
    requires WellFormed(t) && !t[[]].Leaf? && ApplyAll(t, cmap, sources, w).ok
    ensures RepeatLog(t[[]], cmap, sources, w).Keys <= FirstLog(t, cmap, sources, w).Keys
    decreases |sources|
  {
    hide Apply, OfferLog, First, Repeated, Grows, Extends;
    if sources != [] {
      var k := |sources| - 1;
      LastStep(t, cmap, sources, w);
      RepeatsAreFirst(t, cmap, sources[..k], w);
      RunIsOverlay(t, cmap, sources[..k], w);
      EmptyLog(t[[]], cmap, w);
      if Repeated(t[[]], cmap, sources[k], w).Some? {
        RepeatedFirst(ApplyAll(t, cmap, sources[..k], w).tree, cmap, sources[k], w);
      }
    }
  }

  lemma EmptyLog(root: Entry, cmap: seq<MapEntry>, w: World)
    ensures OfferLog(root, cmap, None, w) == map[]
  {}

  /** No default file is one that get can find. */
  ghost predicate NoSeenFiles(root: Entry, cmap: seq<MapEntry>) {
    forall e :: e in cmap && e.kind.YamlFileEntry? && e.default.Some? ==> Blind(root, e)
  }

  /** Where the logs differ, a default file has replaced what is written in every run. */
  ghost predicate Agree(first: Tree, repeats: Tree)
    requires repeats.Keys <= first.Keys
  {
    forall a :: a in repeats ==> first[a] == repeats[a]
  }

  lemma UnchangedIff(t: Tree, first: Tree, repeats: Tree)
    requires repeats.Keys <= first.Keys
    ensures t + first + repeats == t + first <==> Agree(first, repeats)
  {
    forall a | a in repeats
      ensures (t + first + repeats)[a] == repeats[a] && (t + first)[a] == first[a]
    {
      assert a in first;
    }
    if Agree(first, repeats) {
      assert t + first + repeats == t + first;
    }
  }

  /** A seen default that is no file fills a gap and replaces nothing. */
  lemma SeenFills(t: Tree, cmap: seq<MapEntry>, s: Source, w: World)
    requires WellFormed(t) && Apply(t, cmap, s, w).ok && NoSeenFiles(t[[]], cmap)
    requires First(t, cmap, s, w) != Repeated(t[[]], cmap, s, w)
    ensures Untouched(t, Apply(t, cmap, s, w).tree)
  {
    hide Offer, DefaultStep, PlainStart, Tokens, GetPath, DefaultValue, ValueFor;
    var i := s.entry;
    assert cmap[i] in cmap;
    NoDefaultIsNoValue(cmap[i], w);
    if Blind(t[[]], cmap[i]) {
      BlindNotFound(t, cmap[i].path.value);
    }
    DefaultStepKeeps(t, cmap[i], w);
  }

  lemma {:induction false} LogsAgree(t: Tree, cmap: seq<MapEntry>, sources: seq<Source>, w: World)
    requires WellFormed(t) && !t[[]].Leaf? && ApplyAll(t, cmap, sources, w).ok && NoSeenFiles(t[[]], cmap)
    ensures var first, repeats := FirstLog(t, cmap, sources, w), RepeatLog(t[[]], cmap, sources, w);
      repeats.Keys <= first.Keys && Agree(first, repeats)
    decreases |sources|
  {
    hide Apply, OfferLog, First, Repeated, Grows, Extends, NoSeenFiles;
    RepeatsAreFirst(t, cmap, sources, w);
    if sources != [] {
      var k := |sources| - 1;
      LastStep(t, cmap, sources, w);
      LogsAgree(t, cmap, sources[..k], w);
      RunIsOverlay(t, cmap, sources[..k], w);
      var t1 := ApplyAll(t, cmap, sources[..k], w).tree;
      var o := Repeated(t[[]], cmap, sources[k], w);
      EmptyLog(t[[]], cmap, w);
      AgreeStep(t, FirstLog(t, cmap, sources[..k], w), RepeatLog(t[[]], cmap, sources[..k], w),
        StepLog(t, cmap, sources, k, w), OfferLog(t[[]], cmap, o, w)) by {
        if First(t1, cmap, sources[k], w) != o {
          if o.Some? {
            RepeatedFirst(t1, cmap, sources[k], w);
          }
          SeenFills(t1, cmap, sources[k], w);
          AppliesFirst(t1, cmap, sources[k], w);
        }
      }
    }
  }

  lemma AgreeStep(t: Tree, first: Tree, repeats: Tree, log: Tree, log': Tree)
    requires repeats.Keys <= first.Keys && Agree(first, repeats)
    requires log == log' || (log' == map[] && Untouched(t + first, t + first + log))
    ensures (repeats + log').Keys <= (first + log).Keys && Agree(first + log, repeats + log')
  {
    if log != log' {
      forall a | a in repeats
        ensures (first + log)[a] == repeats[a]
      {
        assert a in t + first && (t + first)[a] == first[a];
        assert (t + first + log)[a] == (t + first)[a];
      }
    }
  }

  // ----- defaults and initialisation again

  /** A run again, right after it has succeeded. */
  lemma RunAgain(t: Tree, cmap: seq<MapEntry>, sources: seq<Source>, w: World)
    requires WellFormed(t) && !t[[]].Leaf? && ApplyAll(t, cmap, sources, w).ok
    ensures var t' := ApplyAll(t, cmap, sources, w).tree;
      var first, repeats := FirstLog(t, cmap, sources, w), RepeatLog(t[[]], cmap, sources, w);
      && repeats.Keys <= first.Keys && WellFormed(t')
      && ApplyAll(t', cmap, sources, w) == Merged(true, t' + repeats)
      && (t' + repeats == t' <==> Agree(first, repeats))
      && (NoSeenFiles(t[[]], cmap) ==> t' + repeats == t')
  {
    hide Apply, FirstLog, RepeatLog, NoSeenFiles, Agree;
    var t' := ApplyAll(t, cmap, sources, w).tree;
    assert Extends(t', t');
    Replay(t, cmap, sources, w, t');
    RunIsOverlay(t, cmap, sources, w);
    RepeatsAreFirst(t, cmap, sources, w);
    UnchangedIff(t, FirstLog(t, cmap, sources, w), RepeatLog(t[[]], cmap, sources, w));
    if NoSeenFiles(t[[]], cmap) {
      LogsAgree(t, cmap, sources, w);
    }
  }

  /** The defaults again, after a successful run. */
  lemma DefaultsAgain(t: Tree, cmap: seq<MapEntry>, w: World)
    requires WellFormed(t) && !t[[]].Leaf? && ApplyDefaults(t, cmap, w).ok
    ensures var t' := ApplyDefaults(t, cmap, w).tree;
      var sources := DefaultSources(|cmap|);
      var first, repeats := FirstLog(t, cmap, sources, w), RepeatLog(t[[]], cmap, sources, w);
      && repeats.Keys <= first.Keys
      && ApplyDefaults(t', cmap, w) == Merged(true, t' + repeats)
      && (t' + repeats == t' <==> Agree(first, repeats))
      && (NoSeenFiles(t[[]], cmap) ==> t' + repeats == t')
  {
    hide Apply, ApplyAll, FirstLog, RepeatLog, NoSeenFiles, WellFormed;
    RunAgain(t, cmap, DefaultSources(|cmap|), w);
  }

  /** Everything that a successful initialisation applies, in order. */
  function AllSources(cmap: seq<MapEntry>, line: CommandLine): seq<Source> {
    Overriding(cmap, line) + DefaultSources(|cmap|)
  }

  lemma InitializeIsRun(t: Tree, cmap: seq<MapEntry>, line: CommandLine, valid: bool, w: World)
    requires WellFormed(t)
    ensures var r := ApplyAll(t, cmap, AllSources(cmap, line), w);
      && (Initialize(t, cmap, line, valid, w).ok <==> valid && LineFits(cmap, line) && r.ok)
      && (Initialize(t, cmap, line, valid, w).ok ==> Initialize(t, cmap, line, valid, w).tree == r.tree)
  {
    hide ApplyAll, Initialize, Overriding, LineFits, Grows;
    ApplyConcat(t, cmap, Overriding(cmap, line), DefaultSources(|cmap|), w);
    PhasesIff(t, cmap, line, valid, w);
    if Initialize(t, cmap, line, valid, w).ok {
      InitializePhases(t, cmap, line, valid, w);
    }
  }

  /**
   * After a successful initialisation the tree is the starting tree with the log over it: at every
   * address there is what the last source has written that writes there, and where none does, what
   * was there before. Options and variables always write; a default does where get does not find it.
   */
  lemma InitializeIsOverlay(t: Tree, cmap: seq<MapEntry>, line: CommandLine, valid: bool, w: World)
    requires WellFormed(t) && !t[[]].Leaf? && Initialize(t, cmap, line, valid, w).ok
    ensures var t' := Initialize(t, cmap, line, valid, w).tree;
      var sources := AllSources(cmap, line);
      && t' == t + FirstLog(t, cmap, sources, w)
      && (forall a, k: nat :: LastAt(t, cmap, sources, w, a, k) ==>
            a in t' && t'[a] == StepLog(t, cmap, sources, k, w)[a])
      && (forall a :: Unwritten(t, cmap, sources, w, a) ==> At(t', a) == At(t, a))
  {
    hide Initialize, ApplyAll, AllSources, FirstLog, LastAt, Unwritten, LineFits, StepLog;
    var t', sources := Initialize(t, cmap, line, valid, w).tree, AllSources(cmap, line);
    InitializeIsRun(t, cmap, line, valid, w);
    RunIsOverlay(t, cmap, sources, w);
    forall a, k: nat | LastAt(t, cmap, sources, w, a, k)
      ensures a in t' && k < |sources| && a in StepLog(t, cmap, sources, k, w)
      ensures t'[a] == StepLog(t, cmap, sources, k, w)[a]
    {
      LastWriter(t, cmap, sources, w, a, k);
      LastAtWrites(t, cmap, sources, w, a, k);
    }
    forall a | Unwritten(t, cmap, sources, w, a)
      ensures At(t', a) == At(t, a)
    {
      NoWriter(t, cmap, sources, w, a);
    }
  }

  lemma LastAtWrites(t: Tree, cmap: seq<MapEntry>, sources: seq<Source>, w: World, a: Addr, k: nat)
    requires [] in t && LastAt(t, cmap, sources, w, a, k)
    ensures k < |sources| && a in StepLog(t, cmap, sources, k, w)
  {}

  /**
   * Initialising a second time succeeds. It ends in the same tree if and only if no default file has
   * replaced a value of an option, a variable, or a default that get cannot see; in particular when
   * no default is a file that get can find.
   */
  lemma InitializeTwice(t: Tree, cmap: seq<MapEntry>, line: CommandLine, valid: bool, w: World)
    requires WellFormed(t) && !t[[]].Leaf? && Initialize(t, cmap, line, valid, w).ok
    ensures var t' := Initialize(t, cmap, line, valid, w).tree;
      var sources := AllSources(cmap, line);
      var first, repeats := FirstLog(t, cmap, sources, w), RepeatLog(t[[]], cmap, sources, w);
      && repeats.Keys <= first.Keys
      && Initialize(t', cmap, line, valid, w) == Merged(true, t' + repeats)
      && (Initialize(t', cmap, line, valid, w) == Merged(true, t') <==> Agree(first, repeats))
      && (NoSeenFiles(t[[]], cmap) ==> Initialize(t', cmap, line, valid, w) == Merged(true, t'))
  {
    hide Initialize, ApplyAll, AllSources;
    hide FirstLog, RepeatLog, NoSeenFiles, Agree, LineFits;
    var t' := Initialize(t, cmap, line, valid, w).tree;
    InitializeIsRun(t, cmap, line, valid, w);
    RunAgain(t, cmap, AllSources(cmap, line), w);
    InitializeIsRun(t', cmap, line, valid, w);
  }

  // ----- scalar roots

  lemma ScalarRootStep(t: Tree, cmap: seq<MapEntry>, s: Source, w: World)
    requires WellFormed(t) && t[[]].Leaf? && Apply(t, cmap, s, w).ok
    ensures Apply(t, cmap, s, w).tree == t
  {
    hide SetScalar, ReadFile, ValueFor;
    forall u: Tree, path, v: Scalar | WellFormed(u) && Extends(t, u)
      ensures !SetScalar(u, path, v).ok
    {
      ScalarRootSets(t, u, path, v);
    }
  }

  lemma ScalarRootSets(t: Tree, u: Tree, path: string, v: Scalar)
    requires WellFormed(t) && WellFormed(u) && t[[]].Leaf? && Extends(t, u)
    ensures !SetScalar(u, path, v).ok
  {
    assert TypeOf(u[[]]) == TypeOf(t[[]]);
    AddressNeedsContainer(u[[]], Tokens(path));
    SetSucceedsExactly(u, Tokens(path), Leaf(v));
  }

  lemma {:induction false} ScalarRootRun(t: Tree, cmap: seq<MapEntry>, sources: seq<Source>, w: World)
    requires WellFormed(t) && t[[]].Leaf? && ApplyAll(t, cmap, sources, w).ok
    ensures ApplyAll(t, cmap, sources, w).tree == t
    decreases |sources|
  {
    hide Apply, Grows;
    if sources != [] {
      ScalarRootRun(t, cmap, sources[..|sources| - 1], w);
      ScalarRootStep(t, cmap, sources[|sources| - 1], w);
    }
  }

  /** On a scalar root, initialisation changes nothing at all when it succeeds. */
  lemma ScalarRootInitialize(t: Tree, cmap: seq<MapEntry>, line: CommandLine, valid: bool, w: World)
    requires WellFormed(t) && t[[]].Leaf? && Initialize(t, cmap, line, valid, w).ok
    ensures Initialize(t, cmap, line, valid, w) == Merged(true, t)
  {
    hide ApplyAll, AllSources, LineFits;
    InitializeIsRun(t, cmap, line, valid, w);
    ScalarRootRun(t, cmap, AllSources(cmap, line), w);
  }
}
