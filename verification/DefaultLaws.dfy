/**
 * Laws of `sconf_defaults`: it only fills what is missing, afterwards every defaulted path is found,
 * and a second run changes nothing.
 */
module DefaultLaws {

  import opened Basics
  import opened CText
  import opened Convert
  import opened ConfigMap
  import opened ConfigTree
  import opened PathSpec
  import opened PathLaws
  import opened YamlDocs
  import opened YamlLaws
  import opened YamlStreams
  import opened YamlMerge
  import opened YamlOverlay
  import opened Layers

  /** Every entry is still there, with its value. */
  ghost predicate Untouched(t: Tree, t': Tree) {
    forall p :: p in t ==> p in t' && t'[p] == t[p]
  }

  /** With a plain start, get and set agree on what a path stands for: what is not found is not there. */
  lemma NotFoundIsAbsent(t: Tree, path: string, e: Entry)
    requires WellFormed(t) && PlainStart(t[[]], Tokens(path))
    requires SetPath(t, path, Some(e)).ok && GetPath(t, path) == NotFound
    ensures Address(t[[]], Tokens(path)).Some? && Address(t[[]], Tokens(path)).value !in t
  {
    var toks := Tokens(path);
    SetWrites(t, toks, e);
    var n := Address(t[[]], toks).value;
    if toks != [] {
      SettableIsConsistent(t, n, e);
      GetRefinesLookup(t, path);
    }
  }

  /** A scalar is filled in without touching anything, whether or not this succeeds. */
  lemma FillKeeps(t: Tree, path: string, v: Scalar)
    requires WellFormed(t) && PlainStart(t[[]], Tokens(path)) && GetPath(t, path) == NotFound
    ensures Untouched(t, SetScalar(t, path, v).tree)
  {
    hide SetPath, GetPath, Address, PlainStart, Tokens;
    if SetPath(t, path, Some(Leaf(v))).ok {
      NotFoundIsAbsent(t, path, Leaf(v));
      SetRefinesFlatMap(t, path, v);
    } else {
      FailedSetKeepsScalars(t, path, Some(Leaf(v)));
    }
  }

  /** A default, if there is one, for a path that get and set understand alike, and not for a YAML file. */
  predicate FillsOnly(root: Entry, e: MapEntry) {
    e.default.Some? ==> !e.kind.YamlFileEntry? && (e.path.Some? ==> PlainStart(root, Tokens(e.path.value)))
  }

  lemma DefaultStepKeeps(t: Tree, e: MapEntry, w: World)
    requires WellFormed(t) && FillsOnly(t[[]], e)
    ensures Untouched(t, DefaultStep(t, e, w).tree)
  {
    hide SetScalar, GetPath, PlainStart, Tokens;
    if e.default.Some? && e.path.Some? && GetPath(t, e.path.value) == NotFound {
      var v := ValueFor(e.kind, e.default.value, w.strtod);
      if v.Some? {
        FillKeeps(t, e.path.value, v.value);
      }
    }
  }

  lemma {:induction false} DefaultsFill(t: Tree, cmap: seq<MapEntry>, n: nat, w: World)
    requires WellFormed(t) && n <= |cmap| && forall e :: e in cmap ==> FillsOnly(t[[]], e)
    ensures Untouched(t, ApplyAll(t, cmap, DefaultSources(n), w).tree)
    decreases n
  {
    hide DefaultStep, FillsOnly;
    if n > 0 {
      assert DefaultSources(n)[..n - 1] == DefaultSources(n - 1);
      DefaultsFill(t, cmap, n - 1, w);
      var t' := ApplyAll(t, cmap, DefaultSources(n - 1), w).tree;
      assert cmap[n - 1] in cmap;
      DefaultStepKeeps(t', cmap[n - 1], w);
    }
  }

  /** Defaults never change an entry that is there, not even when they fail midway. */
  lemma DefaultsKeepValues(t: Tree, cmap: seq<MapEntry>, w: World)
    requires WellFormed(t) && forall e :: e in cmap ==> FillsOnly(t[[]], e)
    ensures Untouched(t, ApplyDefaults(t, cmap, w).tree)
  {
    DefaultsFill(t, cmap, |cmap|, w);
  }

  /** Nothing is left to do for the default of an entry. */
  predicate Settled(t: Tree, e: MapEntry)
    requires [] in t
  {
    e.default.Some? ==>
      && e.path.Some? && !e.kind.UsageEntry? && !e.kind.OtherEntry?
      && var r := GetPath(t, e.path.value);
         && r.Found? && r.at in t
         && (e.kind.StrEntry? || e.kind.YamlFileEntry? ==> TypeOf(t[r.at]) == StrType)
  }

  lemma SettledStays(t: Tree, t': Tree, e: MapEntry)
    requires [] in t && [] in t' && Extends(t, t') && Settled(t, e)
    ensures Settled(t', e)
  {
    if e.default.Some? {
      GetStable(t, t', e.path.value);
    }
  }

  lemma SettledStep(t: Tree, e: MapEntry, w: World)
    requires WellFormed(t) && Settled(t, e)
    ensures DefaultStep(t, e, w) == Merged(true, t)
  {}

  lemma SetSettles(t: Tree, path: string, v: Scalar)
    requires WellFormed(t) && PlainStart(t[[]], Tokens(path)) && SetScalar(t, path, v).ok
    ensures var t' := SetScalar(t, path, v).tree;
      var r := GetPath(t', path);
      r.Found? && r.at in t' && t'[r.at] == Leaf(v)
  {
    SetThenGet(t, path, Leaf(v));
  }

  lemma ProvideSettles(t: Tree, kind: EntryType, path: string, text: string, w: World)
    requires WellFormed(t) && PlainStart(t[[]], Tokens(path)) && Provide(t, kind, path, text, w).ok
    ensures var t' := Provide(t, kind, path, text, w).tree;
      var r := GetPath(t', path);
      && r.Found? && r.at in t'
      && (kind.StrEntry? || kind.YamlFileEntry? ==> TypeOf(t'[r.at]) == StrType)
  {
    hide SetScalar, GetPath, Tokens, ReadFile;
    var v := ValueFor(kind, text, w.strtod).value;
    if kind.YamlFileEntry? {
      var r := ReadFile(t, text, w);
      assert TypeOf(r.tree[[]]) == TypeOf(t[[]]);
      SetSettles(r.tree, path, v);
    } else {
      SetSettles(t, path, v);
    }
  }

  lemma DefaultStepSettles(t: Tree, e: MapEntry, w: World)
    requires WellFormed(t) && (e.default.Some? && e.path.Some? ==> PlainStart(t[[]], Tokens(e.path.value)))
    requires DefaultStep(t, e, w).ok
    ensures Settled(DefaultStep(t, e, w).tree, e)
  {
    hide Provide, GetPath, PlainStart, Tokens;
    if e.default.Some? {
      var r := GetPath(t, e.path.value);
      if r == NotFound {
        ProvideSettles(t, e.kind, e.path.value, e.default.value, w);
      } else {
        GetStable(t, t, e.path.value);
      }
    }
  }

  ghost predicate PlainStarts(root: Entry, cmap: seq<MapEntry>) {
    forall e :: e in cmap && e.default.Some? && e.path.Some? ==> PlainStart(root, Tokens(e.path.value))
  }

  lemma PlainStartStays(t: Tree, t': Tree, toks: seq<string>)
    requires [] in t && Extends(t, t')
    ensures PlainStart(t'[[]], toks) == PlainStart(t[[]], toks)
  {
    assert TypeOf(t'[[]]) == TypeOf(t[[]]);
  }

  /** A default on a plain path is settled by its own step, whatever the other entries are. */
  lemma {:induction false} DefaultsSettle(t: Tree, cmap: seq<MapEntry>, n: nat, w: World, i: nat)
    requires WellFormed(t) && i < n <= |cmap|
    requires cmap[i].default.Some? && cmap[i].path.Some? ==> PlainStart(t[[]], Tokens(cmap[i].path.value))
    requires ApplyAll(t, cmap, DefaultSources(n), w).ok
    ensures Settled(ApplyAll(t, cmap, DefaultSources(n), w).tree, cmap[i])
    decreases n
  {
    hide DefaultStep, Settled, PlainStart, Tokens;
    assert DefaultSources(n)[..n - 1] == DefaultSources(n - 1);
    var t1 := ApplyAll(t, cmap, DefaultSources(n - 1), w).tree;
    if i == n - 1 {
      if cmap[i].path.Some? {
        PlainStartStays(t, t1, Tokens(cmap[i].path.value));
      }
      DefaultStepSettles(t1, cmap[i], w);
    } else {
      DefaultsSettle(t, cmap, n - 1, w, i);
      SettledStays(t1, ApplyAll(t, cmap, DefaultSources(n), w).tree, cmap[i]);
    }
  }

  /** After success every path with a default and a plain start is found, strings and file names as strings. */
  lemma DefaultsThenGet(t: Tree, cmap: seq<MapEntry>, w: World, i: nat)
    requires WellFormed(t) && ApplyDefaults(t, cmap, w).ok
    requires i < |cmap| && cmap[i].default.Some?
    requires cmap[i].path.Some? ==> PlainStart(t[[]], Tokens(cmap[i].path.value))
    ensures var t' := ApplyDefaults(t, cmap, w).tree;
      && cmap[i].path.Some?
      && var r := GetPath(t', cmap[i].path.value);
         && r.Found? && r.at in t'
         && (cmap[i].kind.StrEntry? || cmap[i].kind.YamlFileEntry? ==> TypeOf(t'[r.at]) == StrType)
  {
    hide PlainStart, Tokens;
    DefaultsSettle(t, cmap, |cmap|, w, i);
  }

  lemma {:induction false} SettledDefaults(t: Tree, cmap: seq<MapEntry>, n: nat, w: World)
    requires WellFormed(t) && n <= |cmap| && forall i :: 0 <= i < n ==> Settled(t, cmap[i])
    ensures ApplyAll(t, cmap, DefaultSources(n), w) == Merged(true, t)
    decreases n
  {
    hide DefaultStep, Settled;
    if n > 0 {
      assert DefaultSources(n)[..n - 1] == DefaultSources(n - 1);
      SettledDefaults(t, cmap, n - 1, w);
      SettledStep(t, cmap[n - 1], w);
    }
  }

  /** Applying the defaults a second time succeeds and changes nothing, YAML files included. */
  lemma DefaultsTwice(t: Tree, cmap: seq<MapEntry>, w: World)
    requires WellFormed(t) && PlainStarts(t[[]], cmap)
    requires ApplyDefaults(t, cmap, w).ok
    ensures var t' := ApplyDefaults(t, cmap, w).tree;
      ApplyDefaults(t', cmap, w) == Merged(true, t')
  {
    forall i | 0 <= i < |cmap|
      ensures Settled(ApplyDefaults(t, cmap, w).tree, cmap[i])
    {
      hide PlainStart, Tokens, Settled, ApplyAll;
      assert cmap[i] in cmap;
      DefaultsSettle(t, cmap, |cmap|, w, i);
    }
    SettledDefaults(ApplyDefaults(t, cmap, w).tree, cmap, |cmap|, w);
  }

  // ----- the paths that get does not find

  lemma SetAgainSettable(t: Tree, n: Addr, v: Scalar, v': Scalar)
    requires n != [] && Settable(t, n, 0, Leaf(v)) && TypeOf(Leaf(v)) == TypeOf(Leaf(v'))
    ensures Settable(Grafted(t, n, 1, Leaf(v)), n, 0, Leaf(v'))
  {
    hide Grafted;
    assert n[..|n|] == n;
    forall j | 0 < j <= |n|
      ensures Admits(Grafted(t, n, 1, Leaf(v)), n[..j], if j < |n| then KindOf(n[j]) else Leaf(v'))
    {
      GraftedEntries(t, n, Leaf(v), n[..j]);
      GraftedEntries(t, n, Leaf(v), n);
      assert Admits(t, n[..j], if j < |n| then KindOf(n[j]) else Leaf(v));
    }
  }

  /** Setting a path again with a scalar of the same type changes that scalar and nothing else. */
  lemma SetAgain(t: Tree, path: string, v: Scalar, v': Scalar)
    requires WellFormed(t) && SetPath(t, path, Some(Leaf(v))).ok && TypeOf(Leaf(v)) == TypeOf(Leaf(v'))
    ensures var t' := SetPath(t, path, Some(Leaf(v))).tree;
      var n := Address(t[[]], Tokens(path));
      n.Some? && n.value != [] && t'[[]] == t[[]]
      && SetPath(t', path, Some(Leaf(v'))) == SetResult(true, t'[n.value := Leaf(v')])
  {
    hide SetTokens, Settable, Grafted, Tokens, Address;
    var toks := Tokens(path);
    SetWrites(t, toks, Leaf(v));
    var n := Address(t[[]], toks).value;
    var t' := SetPath(t, path, Some(Leaf(v))).tree;
    GraftedEntries(t, n, Leaf(v), []);
    SetAgainSettable(t, n, v, v');
    SetSucceedsExactly(t', toks, Leaf(v'));
    SetWrites(t', toks, Leaf(v'));
    forall p
      ensures p in Grafted(t', n, 1, Leaf(v')) <==> p in t' || p == n
      ensures p in t' && p != n ==> Grafted(t', n, 1, Leaf(v'))[p] == t'[p]
    {
      GraftedEntries(t, n, Leaf(v), p);
      GraftedEntries(t', n, Leaf(v'), p);
    }
    GraftedEntries(t', n, Leaf(v'), n);
    assert Grafted(t', n, 1, Leaf(v')) == t'[n := Leaf(v')];
  }

  /**
   * A default leaves alone what has been set on the same path, exactly when the start of the path is
   * plain. Below a dict root, "[0].a" is written by set but not found by get, so that the default
   * replaces the value.
   */
  lemma DefaultAfterSet(t: Tree, e: MapEntry, v: Scalar, w: World)
    requires WellFormed(t) && e.path.Some? && SetScalar(t, e.path.value, v).ok
    requires !e.kind.YamlFileEntry? && e.default.Some?
    requires var d := ValueFor(e.kind, e.default.value, w.strtod);
      d.Some? && TypeOf(Leaf(d.value)) == TypeOf(Leaf(v))
    ensures var t' := SetScalar(t, e.path.value, v).tree;
      var n := Address(t[[]], Tokens(e.path.value));
      var d := ValueFor(e.kind, e.default.value, w.strtod).value;
      && n.Some? && n.value in t' && t'[n.value] == Leaf(v)
      && DefaultStep(t', e, w) ==
         Merged(true, if PlainStart(t[[]], Tokens(e.path.value)) then t' else t'[n.value := Leaf(d)])
  {
    hide SetTokens, GetTokens, Tokens, Address, PlainStart;
    SetThenGet(t, e.path.value, Leaf(v));
    SetAgain(t, e.path.value, v, ValueFor(e.kind, e.default.value, w.strtod).value);
  }

  /** A flag on the path "[0].a" with the default "true". */
  const BRACKET_FLAG := MapEntry(Some(BRACKET_PATH), BoolEntry, None, 0, None, Some("true"))

  /** Below an empty dict this path is set to false, and the default makes it true. */
  lemma DefaultReplaces(w: World)
    ensures var n := [Key("[0]"), Key("a")];
      var r := SetScalar(EMPTY_DICT, BRACKET_PATH, Bool(false));
      && WellFormed(EMPTY_DICT) && r.ok
      && n in r.tree && r.tree[n] == Leaf(Bool(false))
      && DefaultStep(r.tree, BRACKET_FLAG, w) == Merged(true, r.tree[n := Leaf(Bool(true))])
  {
    hide Tokens, SetPath, DefaultStep, Address, PlainStart;
    BracketPath();
    BracketIsLost(Bool(false));
    assert StartsWith("true", "true") && "true" in TRUE_WORDS;
    BoolExactly("true");
    DefaultAfterSet(EMPTY_DICT, BRACKET_FLAG, Bool(false), w);
  }

  // ----- YAML files

  /**
   * What a YAML file writes on its own is put over what is there, and only then its name is set. This
   * fails if the file cannot be read on its own, or an entry of another type stands in its way.
   */
  lemma FileOverlays(t: Tree, path: string, name: string, w: World)
    requires WellFormed(t) && name in w.files
    ensures var own := Written(t[[]], w.files[name], w.strtod);
      var r := Provide(t, YamlFileEntry, path, name, w);
      if own.ok && Compatible(t, own.tree)
      then WellFormed(t + own.tree) && r == SetScalar(t + own.tree, path, Str(name))
      else !r.ok
  {
    hide Read, Written, SetScalar, Compatible;
    ReadGrows(t, w.files[name], w.strtod);
    ReadOverlays(t, w.files[name], w.strtod);
  }

  /** Without the file nothing is read, and its name is not set either. */
  lemma MissingFile(t: Tree, path: string, name: string, w: World)
    requires WellFormed(t) && name !in w.files
    ensures Provide(t, YamlFileEntry, path, name, w) == Merged(false, t)
  {
    hide Read, SetScalar;
  }

  /**
   * For a stream of mappings the plan says what is read, also when reading fails; below a dict root
   * this is the merge, as far as the documents are supported.
   */
  lemma FileOfDocuments(t: Tree, path: string, name: string, docs: seq<Pairs>, w: World)
    requires WellFormed(t) && name in w.files && w.files[name] == StreamEvents(docs)
    ensures var r := Perform(t, StreamPlan(t[[]], docs, w.strtod));
      && WellFormed(r.tree)
      && Provide(t, YamlFileEntry, path, name, w) == (if r.ok then SetScalar(r.tree, path, Str(name)) else r)
      && (t[[]].Dict? && FollowsAll(t, docs, w.strtod) ==> r == MergeAll(t, docs, w.strtod))
  {
    hide Read, MergeAll, StreamEvents, SetScalar, FollowsAll, Perform, StreamPlan;
    ReadGrows(t, StreamEvents(docs), w.strtod);
    ReadIsPlan(t, docs, w.strtod);
    if t[[]].Dict? && FollowsAll(t, docs, w.strtod) {
      ReadIsMerge(t, docs, w.strtod);
    }
  }
}
