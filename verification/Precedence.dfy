/**
 * Which source wins: the environment, then the last option, then what was there, then the default.
 * The last of these has an exception, which is stated exactly.
 */
module Precedence {

  import opened Basics
  import opened CText
  import opened Convert
  import opened ConfigMap
  import opened ConfigTree
  import opened PathSpec
  import opened PathLaws
  import opened Yaml
  import opened YamlDocs
  import opened Layers

  // ----- maps whose entries do not get in each other's way

  predicate NameOnly(path: string) {
    Tokens(path) != [] && forall tok :: tok in Tokens(path) ==> !Bracketed(tok)
  }

  function Names(toks: seq<string>): Addr {
    if toks == [] then [] else [Key(toks[0])] + Names(toks[1..])
  }

  /** The address that an entry's path stands for below a dict root. */
  function AddrOf(e: MapEntry): Addr {
    if e.path.Some? then Names(Tokens(e.path.value)) else []
  }

  /** Scalar entries with name-only paths that denote different addresses; besides, usage entries. */
  ghost predicate Distinct(cmap: seq<MapEntry>) {
    && (forall i :: 0 <= i < |cmap| && !cmap[i].kind.UsageEntry? ==>
          && !cmap[i].kind.YamlFileEntry? && cmap[i].path.Some? && NameOnly(cmap[i].path.value))
    && (forall i, j :: 0 <= i < j < |cmap| && !cmap[i].kind.UsageEntry? && !cmap[j].kind.UsageEntry? ==>
          AddrOf(cmap[i]) != AddrOf(cmap[j]))
  }

  ghost predicate ArrayFree(t: Tree) {
    DictRoot(t) && forall a :: a in t ==> !t[a].Array?
  }

  predicate ProperPrefix(n: Addr, p: Addr) {
    |n| < |p| && n == p[..|n|]
  }

  function At(t: Tree, n: Addr): Option<Entry> {
    if n in t then Some(t[n]) else None
  }

  lemma {:induction false} NamesAreTarget(a: Addr, toks: seq<string>)
    requires toks != [] && forall tok :: tok in toks ==> !Bracketed(tok)
    ensures Target(Dict, a, toks) == Some(a + Names(toks))
    ensures |Names(toks)| == |toks| && forall k :: 0 <= k < |toks| ==> Names(toks)[k].Key?
    decreases |toks|
  {
    if |toks| == 1 {
      assert Names(toks[1..]) == [];
      assert a + [Key(toks[0])] == a + Names(toks);
    } else {
      assert toks[1] in toks && forall tok :: tok in toks[1..] ==> tok in toks;
      NamesAreTarget(a + [Key(toks[0])], toks[1..]);
      assert a + [Key(toks[0])] + Names(toks[1..]) == a + Names(toks);
    }
  }

  lemma AddressIsNames(path: string)
    requires NameOnly(path)
    ensures var n := Names(Tokens(path));
      && Address(Dict, Tokens(path)) == Some(n)
      && n != [] && forall k :: 0 <= k < |n| ==> n[k].Key?
  {
    NamesAreTarget([], Tokens(path));
    assert [] + Names(Tokens(path)) == Names(Tokens(path));
  }

  // ----- one write

  /** What is at another address n once p has been written: the same, or a new dict on the way to p. */
  function Around(t: Tree, n: Addr, p: Addr): Option<Entry> {
    if n in t then Some(t[n]) else if n != [] && ProperPrefix(n, p) then Some(Dict) else None
  }

  /** The tree after a scalar has been set on a name-only path. */
  ghost predicate Wrote(t: Tree, t': Tree, p: Addr, v: Scalar) {
    && ArrayFree(t') && p in t' && t'[p] == Leaf(v)
    && forall n :: n != p ==> At(t', n) == Around(t, n, p)
  }

  lemma SetNamed(t: Tree, path: string, v: Scalar)
    requires ArrayFree(t) && NameOnly(path) && SetScalar(t, path, v).ok
    ensures Wrote(t, SetScalar(t, path, v).tree, Names(Tokens(path)), v)
  {
    hide SetTokens, Tokens, Names, NameOnly, Settable, Grafted, Grows;
    AddressIsNames(path);
    SetWrites(t, Tokens(path), Leaf(v));
    var p := Names(Tokens(path));
    var t' := SetScalar(t, path, v).tree;
    forall n
      ensures n != p ==> At(t', n) == Around(t, n, p)
    {
      GraftedEntries(t, p, Leaf(v), n);
    }
    GraftedEntries(t, p, Leaf(v), p);
    SetThenGet(t, path, Leaf(v));
    assert At(t', []) == Around(t, [], p);
    forall n | n in t'
      ensures !t'[n].Array?
    {
      assert n == p || At(t', n) == Some(t'[n]);
    }
  }

  /** Getting a name-only path below a dict root without arrays finds exactly what is there. */
  lemma GetNamed(t: Tree, path: string)
    requires ArrayFree(t) && NameOnly(path)
    ensures var n := Names(Tokens(path));
      && (GetPath(t, path).Found? <==> n in t)
      && (GetPath(t, path).Found? ==> GetPath(t, path) == Found(n))
  {
    hide Names, GetTokens;
    AddressIsNames(path);
    var n := Names(Tokens(path));
    forall j | 0 < j < |n| && n[..j] in t && !t[n[..j]].Leaf?
      ensures t[n[..j]] == KindOf(n[j])
    {
      assert n[j].Key?;
    }
    GetRefinesLookup(t, path);
  }

  // ----- what a source offers

  datatype Offered = Offered(entry: nat, value: Scalar)

  /** The entry that an option or a variable provides for, and the value. */
  function Offer(cmap: seq<MapEntry>, s: Source, w: World): (r: Option<Offered>)
    ensures r.Some? ==> r.value.entry < |cmap| && !cmap[r.value.entry].kind.UsageEntry?
  {
    match s
    case FromOption(o) =>
      (match FindShort(cmap, o.c)
       case None => None
       case Some(i) =>
         if cmap[i].kind.UsageEntry? then None
         else if o.arg.None? then if cmap[i].kind.BoolEntry? then Some(Offered(i, Bool(true))) else None
         else match ValueFor(cmap[i].kind, o.arg.value, w.strtod)
           case Some(v) => Some(Offered(i, v))
           case None => None)
    case FromEnv(i) =>
      (match EnvValue(cmap, i, w)
       case Some(v) => Some(Offered(i, v))
       case None => None)
    case FromDefault(_) => None
  }

  function EnvValue(cmap: seq<MapEntry>, i: nat, w: World): (r: Option<Scalar>)
    ensures r.Some? ==> i < |cmap| && !cmap[i].kind.UsageEntry?
  {
    if i < |cmap| && cmap[i].env.Some? && cmap[i].env.value in w.env
    then ValueFor(cmap[i].kind, w.env[cmap[i].env.value], w.strtod)
    else None
  }

  /** The last value that the sources offer for entry i. */
  function LastOffer(cmap: seq<MapEntry>, sources: seq<Source>, i: nat, w: World): (r: Option<Scalar>)
    ensures r.Some? ==> i < |cmap| && !cmap[i].kind.UsageEntry?
  {
    if sources == [] then None
    else
      var n := |sources| - 1;
      match Offer(cmap, sources[n], w)
      case Some(o) => if o.entry == i then Some(o.value) else LastOffer(cmap, sources[..n], i, w)
      case None => LastOffer(cmap, sources[..n], i, w)
  }

  lemma {:induction false} LastOfferConcat(cmap: seq<MapEntry>, s: seq<Source>, s': seq<Source>, i: nat, w: World)
    ensures LastOffer(cmap, s + s', i, w) ==
      if LastOffer(cmap, s', i, w).Some? then LastOffer(cmap, s', i, w) else LastOffer(cmap, s, i, w)
    decreases |s'|
  {
    if s' == [] {
      assert s + s' == s;
    } else {
      hide Offer;
      var n := |s'| - 1;
      assert (s + s')[..|s| + n] == s + s'[..n] && (s + s')[|s| + n] == s'[n];
      LastOfferConcat(cmap, s, s'[..n], i, w);
    }
  }

  lemma {:induction false} EnvOffers(cmap: seq<MapEntry>, n: nat, i: nat, w: World)
    requires n <= |cmap|
    ensures LastOffer(cmap, EnvSources(n), i, w) == if i < n then EnvValue(cmap, i, w) else None
    decreases n
  {
    if n > 0 {
      assert EnvSources(n)[..n - 1] == EnvSources(n - 1);
      EnvOffers(cmap, n - 1, i, w);
    }
  }

  /** An option or a variable that does not fail sets what it offers, or does nothing. */
  lemma ApplyOffer(t: Tree, cmap: seq<MapEntry>, s: Source, w: World)
    requires ArrayFree(t) && Distinct(cmap) && !s.FromDefault? && Apply(t, cmap, s, w).ok
    ensures var t' := Apply(t, cmap, s, w).tree;
      match Offer(cmap, s, w)
      case None => t' == t
      case Some(o) => Wrote(t, t', AddrOf(cmap[o.entry]), o.value)
  {
    hide Wrote, SetScalar, NameOnly, Names, AddrOf;
    var o := Offer(cmap, s, w);
    if o.Some? {
      OfferSets(t, cmap, s, w, t);
      AddrIsNames(cmap[o.value.entry]);
      SetNamed(t, cmap[o.value.entry].path.value, o.value.value);
    } else {
      NoOffer(t, cmap, s, w, t);
    }
  }

  lemma AddrIsNames(e: MapEntry)
    requires e.path.Some?
    ensures AddrOf(e) == Names(Tokens(e.path.value))
  {}

  lemma OfferSets(t: Tree, cmap: seq<MapEntry>, s: Source, w: World, u: Tree)
    requires WellFormed(t) && WellFormed(u) && !s.FromDefault? && Apply(t, cmap, s, w).ok && Offer(cmap, s, w).Some?
    requires !cmap[Offer(cmap, s, w).value.entry].kind.YamlFileEntry?
    ensures var o := Offer(cmap, s, w).value;
      && cmap[o.entry].path.Some?
      && Apply(t, cmap, s, w) == SetScalar(t, cmap[o.entry].path.value, o.value)
      && Apply(u, cmap, s, w) == SetScalar(u, cmap[o.entry].path.value, o.value)
  {
    hide SetScalar;
  }

  lemma NoOffer(t: Tree, cmap: seq<MapEntry>, s: Source, w: World, u: Tree)
    requires WellFormed(t) && WellFormed(u) && !s.FromDefault? && Apply(t, cmap, s, w).ok && Offer(cmap, s, w).None?
    ensures Apply(t, cmap, s, w).tree == t && Apply(u, cmap, s, w) == Merged(true, u)
  {
    hide SetScalar;
  }

  // ----- options and variables

  /** What an address holds, given the value that won, whether a longer address was written, and the default. */
  function Expected(t: Tree, n: Addr, winner: Option<Scalar>, under: bool, default: Option<Scalar>): Option<Entry> {
    if winner.Some? then Some(Leaf(winner.value))
    else if n in t then Some(t[n])
    else if under then Some(Dict)
    else if default.Some? then Some(Leaf(default.value))
    else None
  }

  /** Whether the sources provide for an entry whose path extends n. */
  ghost predicate Reaches(cmap: seq<MapEntry>, sources: seq<Source>, n: Addr, w: World) {
    exists j :: 0 <= j < |cmap| && LastOffer(cmap, sources, j, w).Some? && ProperPrefix(n, AddrOf(cmap[j]))
  }

  lemma ReachesNext(cmap: seq<MapEntry>, sources: seq<Source>, n: Addr, w: World)
    requires sources != []
    ensures var k := |sources| - 1;
      var o := Offer(cmap, sources[k], w);
      Reaches(cmap, sources, n, w) <==>
        Reaches(cmap, sources[..k], n, w) || (o.Some? && ProperPrefix(n, AddrOf(cmap[o.value.entry])))
  {
    hide Offer, AddrOf, ProperPrefix;
    var k := |sources| - 1;
    var o := Offer(cmap, sources[k], w);
    if Reaches(cmap, sources[..k], n, w) {
      var j :| 0 <= j < |cmap| && LastOffer(cmap, sources[..k], j, w).Some? && ProperPrefix(n, AddrOf(cmap[j]));
      assert LastOffer(cmap, sources, j, w).Some?;
    }
    if o.Some? && ProperPrefix(n, AddrOf(cmap[o.value.entry])) {
      assert LastOffer(cmap, sources, o.value.entry, w).Some?;
    }
  }

  lemma WroteExpected(t0: Tree, t: Tree, t': Tree, n: Addr, p: Addr, v: Scalar, winner: Option<Scalar>, under: bool)
    requires n != [] && Wrote(t, t', p, v) && At(t, n) == Expected(t0, n, winner, under, None)
    ensures At(t', n) == Expected(t0, n, if n == p then Some(v) else winner, under || ProperPrefix(n, p), None)
  {
    if n != p && ProperPrefix(n, p) && n in t {
      PrefixClosed(t', p, |n| + 1);
      assert p[..|n| + 1] == n + [p[|n|]];
      assert At(t', n) == Some(t[n]);
    }
  }

  lemma OfferExpected(t0: Tree, t: Tree, cmap: seq<MapEntry>, sources: seq<Source>, i: nat, w: World)
    requires sources != [] && i < |cmap| && !cmap[i].kind.UsageEntry? && Distinct(cmap)
    requires ArrayFree(t) && forall s :: s in sources ==> !s.FromDefault?
    requires var k := |sources| - 1;
      && Apply(t, cmap, sources[k], w).ok
      && At(t, AddrOf(cmap[i])) ==
           Expected(t0, AddrOf(cmap[i]), LastOffer(cmap, sources[..k], i, w),
                     Reaches(cmap, sources[..k], AddrOf(cmap[i]), w), None)
    ensures var t' := Apply(t, cmap, sources[|sources| - 1], w).tree;
      && ArrayFree(t')
      && At(t', AddrOf(cmap[i])) ==
           Expected(t0, AddrOf(cmap[i]), LastOffer(cmap, sources, i, w),
                     Reaches(cmap, sources, AddrOf(cmap[i]), w), None)
  {
    hide Offer, Apply, AddrOf, ProperPrefix, Reaches, NameOnly, Grows, Expected;
    var k := |sources| - 1;
    var n := AddrOf(cmap[i]);
    var o := Offer(cmap, sources[k], w);
    assert sources[k] in sources;
    ApplyOffer(t, cmap, sources[k], w);
    ReachesNext(cmap, sources, n, w);
    if o.Some? {
      AddressIsNames(cmap[i].path.value);
      AddrIsNames(cmap[i]);
      var j := o.value.entry;
      assert j != i ==> AddrOf(cmap[j]) != n;
      WroteExpected(t0, t, Apply(t, cmap, sources[k], w).tree, n, AddrOf(cmap[j]), o.value.value,
        LastOffer(cmap, sources[..k], i, w), Reaches(cmap, sources[..k], n, w));
      if j == i {
        assert !ProperPrefix(n, n) by { NotProper(n); }
      }
    }
  }

  lemma NotProper(n: Addr)
    ensures !ProperPrefix(n, n)
  {}

  /** After options and variables, each entry's address holds what is expected of them. */
  lemma {:induction false} Overrides(t: Tree, cmap: seq<MapEntry>, sources: seq<Source>, i: nat, w: World)
    requires ArrayFree(t) && Distinct(cmap) && i < |cmap| && !cmap[i].kind.UsageEntry?
    requires forall s :: s in sources ==> !s.FromDefault?
    requires ApplyAll(t, cmap, sources, w).ok
    ensures var t' := ApplyAll(t, cmap, sources, w).tree;
      && ArrayFree(t')
      && At(t', AddrOf(cmap[i])) ==
           Expected(t, AddrOf(cmap[i]), LastOffer(cmap, sources, i, w),
                     Reaches(cmap, sources, AddrOf(cmap[i]), w), None)
    decreases |sources|
  {
    hide AddrOf, Apply, Offer;
    if sources != [] {
      var rest := sources[..|sources| - 1];
      assert forall s :: s in rest ==> s in sources;
      Overrides(t, cmap, rest, i, w);
      OfferExpected(t, ApplyAll(t, cmap, rest, w).tree, cmap, sources, i, w);
    }
  }

  // ----- defaults

  function DefaultValue(e: MapEntry, w: World): Option<Scalar> {
    if e.default.Some? then ValueFor(e.kind, e.default.value, w.strtod) else None
  }

  /** Whether one of the first k entries has a default and a path that extends n. */
  ghost predicate DefaultReaches(cmap: seq<MapEntry>, k: nat, n: Addr) {
    exists j ::
      && 0 <= j < k && j < |cmap| && ProperPrefix(n, AddrOf(cmap[j]))
      && cmap[j].default.Some? && !cmap[j].kind.UsageEntry?
  }

  /** A default that does not fail is set where nothing is, or finds its path taken. */
  lemma DefaultWrites(t: Tree, e: MapEntry, w: World)
    requires ArrayFree(t) && e.default.Some? && DefaultStep(t, e, w).ok
    requires !e.kind.UsageEntry? ==> !e.kind.YamlFileEntry? && e.path.Some? && NameOnly(e.path.value)
    ensures var t' := DefaultStep(t, e, w).tree;
      && !e.kind.UsageEntry? && AddrOf(e) in t'
      && (AddrOf(e) in t ==> t' == t)
      && (AddrOf(e) !in t ==> DefaultValue(e, w).Some? && Wrote(t, t', AddrOf(e), DefaultValue(e, w).value))
  {
    hide SetScalar, GetPath, NameOnly, Names, AddrOf;
    AddrIsNames(e);
    GetNamed(t, e.path.value);
    if GetPath(t, e.path.value) == NotFound {
      SetNamed(t, e.path.value, DefaultValue(e, w).value);
    }
  }

  lemma AncestorIsDict(t: Tree, n: Addr, p: Addr)
    requires ArrayFree(t) && p in t && ProperPrefix(n, p)
    ensures n in t && t[n] == Dict
  {
    PrefixClosed(t, p, |n| + 1);
    assert p[..|n| + 1] == n + [p[|n|]];
  }

  lemma DefaultExpected(t0: Tree, t: Tree, cmap: seq<MapEntry>, k: nat, i: nat, w: World)
    requires ArrayFree(t) && Distinct(cmap) && k < |cmap| && i < |cmap| && !cmap[i].kind.UsageEntry?
    requires DefaultStep(t, cmap[k], w).ok
    requires At(t, AddrOf(cmap[i])) ==
      Expected(t0, AddrOf(cmap[i]), None, DefaultReaches(cmap, k, AddrOf(cmap[i])),
               if i < k then DefaultValue(cmap[i], w) else None)
    ensures var t' := DefaultStep(t, cmap[k], w).tree;
      && ArrayFree(t')
      && At(t', AddrOf(cmap[i])) ==
           Expected(t0, AddrOf(cmap[i]), None, DefaultReaches(cmap, k + 1, AddrOf(cmap[i])),
                    if i < k + 1 then DefaultValue(cmap[i], w) else None)
  {
    hide DefaultStep, NameOnly, AddrOf, Grows, ValueFor;
    var n, p := AddrOf(cmap[i]), AddrOf(cmap[k]);
    var t' := DefaultStep(t, cmap[k], w).tree;
    if cmap[k].default.Some? {
      DefaultWrites(t, cmap[k], w);
      AddressIsNames(cmap[i].path.value);
      AddrIsNames(cmap[i]);
      assert k != i && !cmap[k].kind.UsageEntry? ==> p != n;
      assert DefaultReaches(cmap, k + 1, n) <==> DefaultReaches(cmap, k, n) || ProperPrefix(n, p);
      if ProperPrefix(n, p) {
        AncestorIsDict(t', n, p);
      }
    } else {
      NoDefaultStep(t, cmap[k], w);
      assert DefaultReaches(cmap, k + 1, n) <==> DefaultReaches(cmap, k, n);
    }
  }

  lemma NoDefaultStep(t: Tree, e: MapEntry, w: World)
    requires WellFormed(t) && e.default.None?
    ensures DefaultStep(t, e, w) == Merged(true, t)
  {}

  lemma {:induction false} DefaultsExpected(t: Tree, cmap: seq<MapEntry>, k: nat, i: nat, w: World)
    requires ArrayFree(t) && Distinct(cmap) && k <= |cmap| && i < |cmap| && !cmap[i].kind.UsageEntry?
    requires ApplyAll(t, cmap, DefaultSources(k), w).ok
    ensures var t' := ApplyAll(t, cmap, DefaultSources(k), w).tree;
      && ArrayFree(t')
      && At(t', AddrOf(cmap[i])) ==
           Expected(t, AddrOf(cmap[i]), None, DefaultReaches(cmap, k, AddrOf(cmap[i])),
               if i < k then DefaultValue(cmap[i], w) else None)
    decreases k
  {
    hide AddrOf, DefaultStep, DefaultValue;
    if k > 0 {
      assert DefaultSources(k)[..k - 1] == DefaultSources(k - 1);
      DefaultsExpected(t, cmap, k - 1, i, w);
      DefaultExpected(t, ApplyAll(t, cmap, DefaultSources(k - 1), w).tree, cmap, k - 1, i, w);
    }
  }

  // ----- the whole

  /** The options that are looked at. */
  function Heard(cmap: seq<MapEntry>, line: CommandLine): seq<Opt> {
    if line.present && OptionTables.OptText(cmap) != "" then line.opts else []
  }

  /** What the command line and the environment say of entry i. The environment has the last word. */
  function Winner(cmap: seq<MapEntry>, line: CommandLine, i: nat, w: World): Option<Scalar> {
    if EnvValue(cmap, i, w).Some? then EnvValue(cmap, i, w)
    else LastOffer(cmap, OptionSources(Heard(cmap, line)), i, w)
  }

  /** Whether an option, a variable or a default provides for an entry whose path extends n. */
  ghost predicate Overgrown(cmap: seq<MapEntry>, line: CommandLine, n: Addr, w: World) {
    exists j ::
      && 0 <= j < |cmap| && ProperPrefix(n, AddrOf(cmap[j]))
      && !cmap[j].kind.UsageEntry? && (Winner(cmap, line, j, w).Some? || cmap[j].default.Some?)
  }

  function Overriding(cmap: seq<MapEntry>, line: CommandLine): seq<Source> {
    OptionSources(Heard(cmap, line)) + EnvSources(|cmap|)
  }

  lemma InitializePhases(t: Tree, cmap: seq<MapEntry>, line: CommandLine, valid: bool, w: World)
    requires WellFormed(t) && Initialize(t, cmap, line, valid, w).ok
    ensures var r := ApplyAll(t, cmap, Overriding(cmap, line), w);
      && r.ok && ApplyDefaults(r.tree, cmap, w).ok
      && ApplyDefaults(r.tree, cmap, w).tree == Initialize(t, cmap, line, valid, w).tree
  {
    hide Apply, ApplyAll, Grows;
    hide OptionTables.Accepted, OptionTables.LongsUsable, OptionTables.HasRoom, OptionTables.OptText;
    NoSources(t, cmap, w);
    ApplyConcat(t, cmap, OptionSources(Heard(cmap, line)), EnvSources(|cmap|), w);
  }

  lemma NoSources(t: Tree, cmap: seq<MapEntry>, w: World)
    requires WellFormed(t)
    ensures OptionSources([]) == [] && ApplyAll(t, cmap, [], w) == Merged(true, t)
  {}

  lemma WinnerIsLastOffer(cmap: seq<MapEntry>, line: CommandLine, i: nat, w: World)
    requires i < |cmap|
    ensures Winner(cmap, line, i, w) == LastOffer(cmap, Overriding(cmap, line), i, w)
  {
    EnvOffers(cmap, |cmap|, i, w);
    LastOfferConcat(cmap, OptionSources(Heard(cmap, line)), EnvSources(|cmap|), i, w);
  }

  lemma OverridingSources(cmap: seq<MapEntry>, line: CommandLine)
    ensures forall s :: s in Overriding(cmap, line) ==> !s.FromDefault?
  {}

  lemma OvergrownSplits(cmap: seq<MapEntry>, line: CommandLine, n: Addr, w: World)
    ensures Overgrown(cmap, line, n, w)
      <==> Reaches(cmap, Overriding(cmap, line), n, w) || DefaultReaches(cmap, |cmap|, n)
  {
    hide Winner, LastOffer, AddrOf, ProperPrefix;
    forall j | 0 <= j < |cmap|
      ensures Winner(cmap, line, j, w) == LastOffer(cmap, Overriding(cmap, line), j, w)
    {
      WinnerIsLastOffer(cmap, line, j, w);
    }
  }

  /**
   * After a successful initialisation, an entry's address holds the value of its variable, else that
   * of its last option, else what was there before, else its default. The default gives way to
   * a dict exactly when a longer path has been provided for.
   */
  lemma InitializeWinner(t: Tree, cmap: seq<MapEntry>, line: CommandLine, valid: bool, w: World, i: nat)
    requires ArrayFree(t) && Distinct(cmap) && i < |cmap| && !cmap[i].kind.UsageEntry?
    requires Initialize(t, cmap, line, valid, w).ok
    ensures var n := AddrOf(cmap[i]);
      At(Initialize(t, cmap, line, valid, w).tree, n) ==
        match Winner(cmap, line, i, w)
        case Some(v) => Some(Leaf(v))
        case None =>
          if n in t then Some(t[n])
          else if Overgrown(cmap, line, n, w) then Some(Dict)
          else match DefaultValue(cmap[i], w)
            case Some(d) => Some(Leaf(d))
            case None => None
  {
    OverridingSources(cmap, line);
    hide AddrOf, Initialize, Overriding, DefaultValue, Winner, LastOffer, Reaches, DefaultReaches, Overgrown, Apply;
    InitializePhases(t, cmap, line, valid, w);
    var t1 := ApplyAll(t, cmap, Overriding(cmap, line), w).tree;
    Overrides(t, cmap, Overriding(cmap, line), i, w);
    DefaultsExpected(t1, cmap, |cmap|, i, w);
    WinnerIsLastOffer(cmap, line, i, w);
    OvergrownSplits(cmap, line, AddrOf(cmap[i]), w);
  }

  // ----- an entry whose default gives way

  /** Two booleans with defaults; the path of the second is a prefix of the path of the first. */
  const NESTED := [
    MapEntry(Some("a.b"), BoolEntry, None, 0, None, Some("true")),
    MapEntry(Some("a"), BoolEntry, None, 0, None, Some("true"))
  ]

  lemma NestedPaths()
    ensures Tokens("a.b") == ["a", "b"] && Tokens("a") == ["a"]
    ensures AddrOf(NESTED[0]) == [Key("a"), Key("b")] && AddrOf(NESTED[1]) == [Key("a")]
    ensures ArrayFree(EMPTY_DICT) && Distinct(NESTED)
  {
    hide Tokens;
    assert ["a", "b"][1..] == ["b"] && ["b"][1..] == [] && ["a"][1..] == [];
    assert Join(["b"]) == "b" && Join(["a"]) == "a";
    assert Join(["a", "b"]) == "a" + "." + Join(["b"]) == "a.b";
    TokensOfJoin(["a", "b"]);
    TokensOfJoin(["a"]);
    assert Names(["a", "b"]) == [Key("a")] + Names(["b"]) && Names(["b"]) == [Key("b")] + Names([]);
    assert Names(["a"]) == [Key("a")] + Names([]);
  }

  /** Below an empty dict root every short enough name-only path can be set. */
  lemma FirstSet(path: string, v: Scalar)
    requires NameOnly(path) && |Names(Tokens(path))| < MAX_DEPTH
    ensures ArrayFree(EMPTY_DICT) && SetScalar(EMPTY_DICT, path, v).ok && GetPath(EMPTY_DICT, path) == NotFound
    ensures Wrote(EMPTY_DICT, SetScalar(EMPTY_DICT, path, v).tree, Names(Tokens(path)), v)
  {
    hide Tokens, GetTokens, SetTokens, Names, Wrote, Target;
    AddressIsNames(path);
    assert Tokens(path)[0] in Tokens(path);
    var n := Names(Tokens(path));
    forall j | 0 < j <= |n|
      ensures Admits(EMPTY_DICT, n[..j], if j < |n| then KindOf(n[j]) else Leaf(v))
    {
      assert n[..j][|n[..j]| - 1] == n[j - 1];
    }
    SetSucceedsExactly(EMPTY_DICT, Tokens(path), Leaf(v));
    SetNamed(EMPTY_DICT, path, v);
    SetThenGet(EMPTY_DICT, path, Leaf(v));
    assert n[..0] == [] && n[..1] != [];
    assert forall j :: 0 < j < |n| ==> n[..j] !in EMPTY_DICT;
    GetRefinesLookup(EMPTY_DICT, path);
  }

  lemma NestedFirst(w: World)
    ensures DefaultStep(EMPTY_DICT, NESTED[0], w).ok
    ensures Wrote(EMPTY_DICT, DefaultStep(EMPTY_DICT, NESTED[0], w).tree, AddrOf(NESTED[0]), Bool(true))
  {
    hide Tokens, GetPath, SetScalar, AddrOf, Names, Wrote;
    NestedPaths();
    AddrIsNames(NESTED[0]);
    FirstSet("a.b", Bool(true));
  }

  lemma NestedSecond(t: Tree, w: World)
    requires Wrote(EMPTY_DICT, t, AddrOf(NESTED[0]), Bool(true))
    ensures ArrayFree(t) && DefaultStep(t, NESTED[1], w) == Merged(true, t) && At(t, AddrOf(NESTED[1])) == Some(Dict)
  {
    hide Tokens, GetTokens, AddrOf, Names;
    NestedPaths();
    AddrIsNames(NESTED[1]);
    assert At(t, [Key("a")]) == Some(Dict);
    GetNamed(t, "a");
  }

  lemma {:induction false} NoVariables(t: Tree, cmap: seq<MapEntry>, n: nat, w: World)
    requires WellFormed(t) && n <= |cmap| && forall e :: e in cmap ==> e.env.None?
    ensures ApplyAll(t, cmap, EnvSources(n), w) == Merged(true, t)
    decreases n
  {
    if n > 0 {
      assert EnvSources(n)[..n - 1] == EnvSources(n - 1) && cmap[n - 1] in cmap;
      NoVariables(t, cmap, n - 1, w);
    }
  }

  lemma TwoDefaults(t: Tree, cmap: seq<MapEntry>, w: World)
    requires WellFormed(t) && |cmap| == 2
    ensures ApplyDefaults(t, cmap, w) ==
      var r := DefaultStep(t, cmap[0], w); if r.ok then DefaultStep(r.tree, cmap[1], w) else r
  {
    hide DefaultStep;
    assert DefaultSources(2)[..1] == DefaultSources(1) && DefaultSources(1)[..0] == [];
    assert ApplyAll(t, cmap, [], w) == Merged(true, t);
    assert ApplyAll(t, cmap, DefaultSources(1), w) == DefaultStep(t, cmap[0], w);
  }

  /**
   * Distinct paths are not enough for a default to be taken: initialisation succeeds here, nothing
   * else provides for the path "a", and it holds a dict in place of its default.
   */
  lemma DefaultGivesWay(w: World)
    ensures ArrayFree(EMPTY_DICT) && Distinct(NESTED)
    ensures var r := Initialize(EMPTY_DICT, NESTED, CommandLine(false, [], false), true, w);
      r.ok && DefaultValue(NESTED[1], w) == Some(Bool(true)) && At(r.tree, AddrOf(NESTED[1])) == Some(Dict)
  {
    hide DefaultStep, Distinct, AddrOf, Wrote, ApplyAll, ApplyDefaults;
    NestedPaths();
    NestedFirst(w);
    var t := DefaultStep(EMPTY_DICT, NESTED[0], w).tree;
    NestedSecond(t, w);
    NoVariables(EMPTY_DICT, NESTED, 2, w);
    TwoDefaults(EMPTY_DICT, NESTED, w);
  }
}
