/**
 * When initialisation succeeds: for maps whose paths are independent of each other, exactly when
 * every text that is given can be converted. The usual order of precedence then holds as it stands.
 */
module Success {

  import opened Basics
  import opened CText
  import opened Convert
  import opened ConfigMap
  import opened ConfigTree
  import opened PathSpec
  import opened PathLaws
  import opened Yaml
  import opened YamlDocs
  import opened Layers
  import opened Precedence

  /** No path is the beginning of another, and none is too long. */
  ghost predicate Independent(cmap: seq<MapEntry>) {
    && Distinct(cmap)
    && (forall i :: 0 <= i < |cmap| && !cmap[i].kind.UsageEntry? ==>
          |AddrOf(cmap[i])| < MAX_DEPTH)
    && (forall i, j :: 0 <= i < |cmap| && 0 <= j < |cmap| && !cmap[i].kind.UsageEntry? && !cmap[j].kind.UsageEntry? ==>
          !ProperPrefix(AddrOf(cmap[i]), AddrOf(cmap[j])))
  }

  function TypeFor(kind: EntryType): NodeType {
    match kind
    case IntEntry => IntType
    case BoolEntry => BoolType
    case FloatEntry => FloatType
    case _ => StrType
  }

  /** An entry's path leads through dicts to nothing, or to a scalar of the entry's type. */
  ghost predicate Open(t: Tree, e: MapEntry) {
    var n := AddrOf(e);
    && (forall j :: 0 < j < |n| && n[..j] in t ==> t[n[..j]].Dict?)
    && (n in t ==> TypeOf(t[n]) == TypeFor(e.kind))
  }

  ghost predicate AllOpen(t: Tree, cmap: seq<MapEntry>) {
    ArrayFree(t) && forall i :: 0 <= i < |cmap| && !cmap[i].kind.UsageEntry? ==> Open(t, cmap[i])
  }

  lemma ValueType(kind: EntryType, text: string, strtod: Strtod)
    requires ValueFor(kind, text, strtod).Some?
    ensures TypeOf(Leaf(ValueFor(kind, text, strtod).value)) == TypeFor(kind)
  {}

  lemma OpenSets(t: Tree, cmap: seq<MapEntry>, k: nat, v: Scalar)
    requires Independent(cmap) && AllOpen(t, cmap) && k < |cmap| && !cmap[k].kind.UsageEntry?
    requires TypeOf(Leaf(v)) == TypeFor(cmap[k].kind)
    ensures cmap[k].path.Some? && SetScalar(t, cmap[k].path.value, v).ok
    ensures Wrote(t, SetScalar(t, cmap[k].path.value, v).tree, AddrOf(cmap[k]), v)
  {
    hide SetTokens, Tokens, Names, Address, Grows, Wrote;
    var e := cmap[k];
    var path, n := e.path.value, AddrOf(e);
    AddrIsNames(e);
    AddressIsNames(path);
    assert n[..|n|] == n;
    forall j | 0 < j <= |n|
      ensures Admits(t, n[..j], if j < |n| then KindOf(n[j]) else Leaf(v))
    {
      assert n[..j][|n[..j]| - 1] == n[j - 1];
    }
    SetSucceedsExactly(t, Tokens(path), Leaf(v));
    SetNamed(t, path, v);
  }

  lemma OpenStays(t: Tree, t': Tree, cmap: seq<MapEntry>, k: nat, v: Scalar)
    requires Independent(cmap) && AllOpen(t, cmap) && k < |cmap| && !cmap[k].kind.UsageEntry?
    requires TypeOf(Leaf(v)) == TypeFor(cmap[k].kind) && Wrote(t, t', AddrOf(cmap[k]), v)
    ensures AllOpen(t', cmap)
  {
    hide AddrOf, NameOnly, DictRoot;
    var p := AddrOf(cmap[k]);
    forall i | 0 <= i < |cmap| && !cmap[i].kind.UsageEntry?
      ensures Open(t', cmap[i])
    {
      var n := AddrOf(cmap[i]);
      assert Open(t, cmap[i]);
      forall j | 0 < j < |n| && n[..j] in t'
        ensures t'[n[..j]].Dict?
      {
        assert n[..j] != p by {
          assert !ProperPrefix(p, n);
        }
        assert At(t', n[..j]) == Around(t, n[..j], p);
      }
      if n in t' && n != p {
        assert !ProperPrefix(n, p);
        assert At(t', n) == Around(t, n, p);
      }
      if n == p && i != k {
        assert false;
      }
    }
  }

  // ----- options and variables

  /** Whether an option or a variable can be taken, as far as the map and the given texts go. */
  predicate Acceptable(cmap: seq<MapEntry>, s: Source, w: World) {
    match s
    case FromOption(o) =>
      && o.c != ':' as nat && o.c != '?' as nat
      && FindShort(cmap, o.c).Some?
      && if cmap[FindShort(cmap, o.c).value].kind.UsageEntry? then w.usage else Offer(cmap, s, w).Some?
    case FromEnv(i) =>
      i < |cmap| && cmap[i].env.Some? ==>
        cmap[i].path.Some? && (cmap[i].env.value in w.env ==> EnvValue(cmap, i, w).Some?)
    case FromDefault(_) => true
  }

  lemma OfferType(cmap: seq<MapEntry>, s: Source, w: World)
    requires Offer(cmap, s, w).Some?
    ensures var o := Offer(cmap, s, w).value;
      TypeOf(Leaf(o.value)) == TypeFor(cmap[o.entry].kind)
  {}

  /** A source that offers something sets it, or fails because it is no good option. */
  lemma OfferApplies(t: Tree, cmap: seq<MapEntry>, s: Source, w: World)
    requires WellFormed(t) && Distinct(cmap) && !s.FromDefault? && Offer(cmap, s, w).Some? && Acceptable(cmap, s, w)
    ensures var o := Offer(cmap, s, w).value;
      cmap[o.entry].path.Some? && Apply(t, cmap, s, w) == SetScalar(t, cmap[o.entry].path.value, o.value)
  {
    hide SetScalar, NameOnly, AddrOf;
  }

  lemma NoOfferApplies(t: Tree, cmap: seq<MapEntry>, s: Source, w: World)
    requires WellFormed(t) && Distinct(cmap) && !s.FromDefault? && (Offer(cmap, s, w).None? || !Acceptable(cmap, s, w))
    ensures Apply(t, cmap, s, w) == Merged(Acceptable(cmap, s, w), t)
  {
    hide SetScalar, NameOnly, AddrOf;
  }

  lemma AppliesIff(t: Tree, cmap: seq<MapEntry>, s: Source, w: World)
    requires Independent(cmap) && AllOpen(t, cmap) && !s.FromDefault?
    ensures Apply(t, cmap, s, w).ok <==> Acceptable(cmap, s, w)
    ensures AllOpen(Apply(t, cmap, s, w).tree, cmap)
  {
    hide Offer, Apply, Acceptable, SetScalar, AddrOf, NameOnly, Wrote, Open, Grows;
    if Offer(cmap, s, w).Some? && Acceptable(cmap, s, w) {
      var o := Offer(cmap, s, w).value;
      OfferApplies(t, cmap, s, w);
      OfferType(cmap, s, w);
      OpenSets(t, cmap, o.entry, o.value);
      OpenStays(t, SetScalar(t, cmap[o.entry].path.value, o.value).tree, cmap, o.entry, o.value);
    } else {
      NoOfferApplies(t, cmap, s, w);
    }
  }

  lemma {:induction false} AppliesAllIff(t: Tree, cmap: seq<MapEntry>, sources: seq<Source>, w: World)
    requires Independent(cmap) && AllOpen(t, cmap) && forall s :: s in sources ==> !s.FromDefault?
    ensures ApplyAll(t, cmap, sources, w).ok <==> forall s :: s in sources ==> Acceptable(cmap, s, w)
    ensures AllOpen(ApplyAll(t, cmap, sources, w).tree, cmap)
    decreases |sources|
  {
    hide Independent, Open, Apply, Acceptable, Grows;
    if sources != [] {
      var k := |sources| - 1;
      var rest := sources[..k];
      assert forall s :: s in sources <==> s in rest || s == sources[k];
      AppliesAllIff(t, cmap, rest, w);
      if ApplyAll(t, cmap, rest, w).ok {
        AppliesIff(ApplyAll(t, cmap, rest, w).tree, cmap, sources[k], w);
      }
    }
  }

  // ----- defaults

  /** Whether the default of entry i can be taken or is not needed, with these entries present. */
  predicate DefaultFits(cmap: seq<MapEntry>, i: nat, present: bool, w: World)
    requires i < |cmap|
  {
    cmap[i].default.Some? ==>
      && !cmap[i].kind.UsageEntry? && !cmap[i].kind.OtherEntry?
      && (present || DefaultValue(cmap[i], w).Some?)
  }

  lemma DefaultAppliesIff(t: Tree, cmap: seq<MapEntry>, k: nat, w: World)
    requires Independent(cmap) && AllOpen(t, cmap) && k < |cmap|
    ensures DefaultStep(t, cmap[k], w).ok <==> DefaultFits(cmap, k, AddrOf(cmap[k]) in t, w)
    ensures AllOpen(DefaultStep(t, cmap[k], w).tree, cmap)
  {
    hide SetScalar, GetPath, AddrOf, NameOnly, Names, Wrote, Grows;
    var e := cmap[k];
    if e.default.Some? && !e.kind.UsageEntry? && !e.kind.OtherEntry? {
      assert e.path.Some? && NameOnly(e.path.value);
      AddrIsNames(e);
      GetNamed(t, e.path.value);
      NotBlocked(t, cmap, k);
      if GetPath(t, e.path.value) == NotFound && DefaultValue(e, w).Some? {
        var v := DefaultValue(e, w).value;
        ValueType(e.kind, e.default.value, w.strtod);
        OpenSets(t, cmap, k, v);
        OpenStays(t, SetScalar(t, e.path.value, v).tree, cmap, k, v);
      }
    }
  }

  /** On an open path get does not run into a scalar. */
  lemma NotBlocked(t: Tree, cmap: seq<MapEntry>, k: nat)
    requires Independent(cmap) && AllOpen(t, cmap) && k < |cmap| && !cmap[k].kind.UsageEntry?
    ensures cmap[k].path.Some? && GetPath(t, cmap[k].path.value) != GetError
  {
    hide GetTokens, Tokens, Names;
    var path, n := cmap[k].path.value, AddrOf(cmap[k]);
    AddrIsNames(cmap[k]);
    AddressIsNames(path);
    assert Open(t, cmap[k]);
    assert Tokens(path)[0] in Tokens(path);
    GetRefinesLookup(t, path);
    assert n[..0] == [];
    OpenLookup(t, n, 0);
  }

  lemma {:induction false} OpenLookup(t: Tree, n: Addr, j: nat)
    requires j < |n| && n[..j] in t && forall i :: j <= i < |n| && n[..i] in t ==> t[n[..i]].Dict?
    ensures Lookup(t, n, j) != GetError
    decreases |n| - j
  {
    if n[..j + 1] in t && j + 1 < |n| {
      OpenLookup(t, n, j + 1);
    }
  }

  lemma {:induction false} DefaultsApplyIff(t: Tree, cmap: seq<MapEntry>, k: nat, w: World)
    requires Independent(cmap) && AllOpen(t, cmap) && k <= |cmap|
    ensures ApplyAll(t, cmap, DefaultSources(k), w).ok <==>
      forall i :: 0 <= i < k ==> DefaultFits(cmap, i, AddrOf(cmap[i]) in t, w)
    ensures AllOpen(ApplyAll(t, cmap, DefaultSources(k), w).tree, cmap)
    decreases k
  {
    hide Open, AddrOf, DefaultStep, DefaultValue, NameOnly, Grows;
    if k > 0 {
      assert DefaultSources(k)[..k - 1] == DefaultSources(k - 1);
      DefaultsApplyIff(t, cmap, k - 1, w);
      var r := ApplyAll(t, cmap, DefaultSources(k - 1), w);
      if r.ok {
        DefaultAppliesIff(r.tree, cmap, k - 1, w);
        if cmap[k - 1].kind.UsageEntry? {
          UsageFits(cmap, k - 1, w);
        } else {
          StillAbsent(t, cmap, k - 1, w);
        }
      }
    }
  }

  lemma UsageFits(cmap: seq<MapEntry>, k: nat, w: World)
    requires k < |cmap| && cmap[k].kind.UsageEntry?
    ensures DefaultFits(cmap, k, true, w) == DefaultFits(cmap, k, false, w)
  {}

  /** The defaults of other entries do not fill an entry's address. */
  lemma StillAbsent(t: Tree, cmap: seq<MapEntry>, k: nat, w: World)
    requires Independent(cmap) && ArrayFree(t) && k < |cmap| && !cmap[k].kind.UsageEntry?
    requires ApplyAll(t, cmap, DefaultSources(k), w).ok
    ensures AddrOf(cmap[k]) in ApplyAll(t, cmap, DefaultSources(k), w).tree <==> AddrOf(cmap[k]) in t
  {
    hide AddrOf, DefaultStep, DefaultValue, NameOnly, Grows;
    DefaultsExpected(t, cmap, k, k, w);
  }

  // ----- all layers

  /** The option tables can be built, and nothing but options is on the command line. */
  ghost predicate LineFits(cmap: seq<MapEntry>, line: CommandLine) {
    line.present ==>
      && OptionTables.Accepted(cmap) && OptionTables.LongsUsable(cmap) && OptionTables.HasRoom(cmap)
      && (OptionTables.OptText(cmap) != "" ==> !line.trailing)
  }

  lemma PhasesIff(t: Tree, cmap: seq<MapEntry>, line: CommandLine, valid: bool, w: World)
    requires WellFormed(t)
    ensures var r := ApplyAll(t, cmap, Overriding(cmap, line), w);
      Initialize(t, cmap, line, valid, w).ok <==>
        valid && LineFits(cmap, line) && r.ok && ApplyDefaults(r.tree, cmap, w).ok
  {
    hide Apply, ApplyDefaults, Grows;
    hide OptionTables.Accepted, OptionTables.LongsUsable, OptionTables.HasRoom, OptionTables.OptText;
    ApplyConcat(t, cmap, OptionSources(Heard(cmap, line)), EnvSources(|cmap|), w);
    NothingToApply(t, cmap, w);
  }

  lemma NothingToApply(t: Tree, cmap: seq<MapEntry>, w: World)
    requires WellFormed(t)
    ensures ApplyAll(t, cmap, OptionSources([]), w) == Merged(true, t)
  {}

  /** With independent paths no entry's address is on the way to another. */
  lemma NotReached(cmap: seq<MapEntry>, sources: seq<Source>, i: nat, w: World)
    requires Independent(cmap) && i < |cmap| && !cmap[i].kind.UsageEntry?
    ensures !Reaches(cmap, sources, AddrOf(cmap[i]), w)
  {
    hide AddrOf, ProperPrefix;
  }

  /** After options and variables, an entry is present if it was before or has been given. */
  lemma PresentIff(t: Tree, cmap: seq<MapEntry>, line: CommandLine, i: nat, w: World)
    requires Independent(cmap) && ArrayFree(t) && i < |cmap| && !cmap[i].kind.UsageEntry?
    requires ApplyAll(t, cmap, Overriding(cmap, line), w).ok
    ensures AddrOf(cmap[i]) in ApplyAll(t, cmap, Overriding(cmap, line), w).tree <==>
      AddrOf(cmap[i]) in t || Winner(cmap, line, i, w).Some?
  {
    OverridingSources(cmap, line);
    hide AddrOf, Overriding, Winner, LastOffer, Reaches, Apply, Grows;
    Overrides(t, cmap, Overriding(cmap, line), i, w);
    NotReached(cmap, Overriding(cmap, line), i, w);
    WinnerIsLastOffer(cmap, line, i, w);
  }

  /**
   * Initialisation with independent paths, on a tree that leaves these paths open, succeeds exactly
   * when the command line fits the option tables, every option and variable can be taken, every
   * default that is needed converts, and the validators agree.
   */
  lemma InitializeSucceeds(t: Tree, cmap: seq<MapEntry>, line: CommandLine, valid: bool, w: World)
    requires Independent(cmap) && AllOpen(t, cmap)
    ensures Initialize(t, cmap, line, valid, w).ok <==>
      && valid && LineFits(cmap, line)
      && (forall s :: s in Overriding(cmap, line) ==> Acceptable(cmap, s, w))
      && forall i :: 0 <= i < |cmap| ==> DefaultFits(cmap, i, AddrOf(cmap[i]) in t || Winner(cmap, line, i, w).Some?, w)
  {
    OverridingSources(cmap, line);
    hide Initialize, Overriding, Winner, LineFits, Acceptable, Independent, Open, ApplyAll, AddrOf, DefaultFits, Grows;
    PhasesIff(t, cmap, line, valid, w);
    AppliesAllIff(t, cmap, Overriding(cmap, line), w);
    if ApplyAll(t, cmap, Overriding(cmap, line), w).ok {
      var t1 := ApplyAll(t, cmap, Overriding(cmap, line), w).tree;
      DefaultsApplyIff(t1, cmap, |cmap|, w);
      forall i | 0 <= i < |cmap|
        ensures DefaultFits(cmap, i, AddrOf(cmap[i]) in t1, w) ==
          DefaultFits(cmap, i, AddrOf(cmap[i]) in t || Winner(cmap, line, i, w).Some?, w)
      {
        if cmap[i].kind.UsageEntry? {
          UsageFits(cmap, i, w);
        } else {
          PresentIff(t, cmap, line, i, w);
        }
      }
    }
  }

  /** With independent paths nothing but the order of precedence counts. */
  lemma InitializePlainly(t: Tree, cmap: seq<MapEntry>, line: CommandLine, valid: bool, w: World, i: nat)
    requires Independent(cmap) && ArrayFree(t) && i < |cmap| && !cmap[i].kind.UsageEntry?
    requires Initialize(t, cmap, line, valid, w).ok
    ensures var n := AddrOf(cmap[i]);
      At(Initialize(t, cmap, line, valid, w).tree, n) ==
        match Winner(cmap, line, i, w)
        case Some(v) => Some(Leaf(v))
        case None =>
          if n in t then Some(t[n])
          else match DefaultValue(cmap[i], w)
            case Some(d) => Some(Leaf(d))
            case None => None
  {
    hide AddrOf, Initialize, Winner, DefaultValue, ArrayFree;
    InitializeWinner(t, cmap, line, valid, w, i);
    assert !Overgrown(cmap, line, AddrOf(cmap[i]), w);
  }
}
