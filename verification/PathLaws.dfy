/** Laws of setting and getting by path: the flat map, the lookup, and how the two meet. */
module PathLaws {

  import opened Basics
  import opened CText
  import opened Convert
  import opened ConfigTree
  import opened PathSpec

  // ----- set

  /** The entries of the tree after a successful set. */
  lemma GraftedEntries(t: Tree, n: Addr, e: Entry, p: Addr)
    requires n != [] && Settable(t, n, 0, e)
    ensures var t' := Grafted(t, n, 1, e);
      && (p in t' <==> p in t || (1 <= |p| <= |n| && p == n[..|p|]))
      && (p in t && p != n ==> t'[p] == t[p])
      && (p in t' && p !in t && p != n ==> t'[p] == KindOf(n[|p|]))
      && t'[n] == e
  {
    SpineEntries(n, 1, p);
    assert n[..|n|] == n;
    if p in t && p in Spine(n, 1) {
      assert Admits(t, n[..|p|], KindOf(n[|p|]));
    }
  }

  lemma GraftedScalar(t: Tree, n: Addr, v: Scalar)
    requires n != [] && Settable(t, n, 0, Leaf(v))
    ensures var t' := Grafted(t, n, 1, Leaf(v));
      && Scalars(t') == Scalars(t)[n := v]
      && (forall p :: p in t && p != n ==> p in t' && t'[p] == t[p])
      && (forall p :: p in t' && p !in t && p != n ==> 0 < |p| < |n| && p == n[..|p|])
  {
    hide Grafted, Settable;
    var t' := Grafted(t, n, 1, Leaf(v));
    assert n[..|n|] == n;
    forall p
      ensures p in t && p != n ==> p in t' && t'[p] == t[p]
      ensures p in t' && p !in t && p != n ==> !t'[p].Leaf? && 0 < |p| < |n| && p == n[..|p|]
    {
      GraftedEntries(t, n, Leaf(v), p);
    }
    GraftedEntries(t, n, Leaf(v), n);
  }

  lemma AddressNeedsContainer(root: Entry, toks: seq<string>)
    ensures root.Leaf? ==> Address(root, toks) == None
  {}

  /** Whether a set of entry e on this path has to succeed. */
  ghost predicate MaySet(t: Tree, toks: seq<string>, e: Entry)
    requires [] in t
  {
    var n := Address(t[[]], toks);
    n.Some? && |n.value| < MAX_DEPTH && Settable(t, n.value, 0, e)
  }

  /** `sconf_set` succeeds exactly when every step may be written and the path is short enough. */
  lemma SetSucceedsExactly(t: Tree, toks: seq<string>, e: Entry)
    requires [] in t
    ensures SetTokens(t, toks, Some(e)).ok <==> MaySet(t, toks, e)
    ensures !SetTokens(t, toks, None).ok
  {
    if toks == [] {
      assert [] + [Idx(0)] == [Idx(0)];
      assert [Idx(0)][..1] == [Idx(0)];
      if MaySet(t, toks, e) {
        assert Admits(t, [Idx(0)][..1], e);
      }
    } else {
      SetWalkSucceeds(t, [], toks, Some(e));
      SetWalkSucceeds(t, [], toks, None);
    }
  }

  /** The tree that a successful set leaves. */
  lemma SetWrites(t: Tree, toks: seq<string>, e: Entry)
    requires [] in t
    requires SetTokens(t, toks, Some(e)).ok
    ensures MaySet(t, toks, e)
    ensures Address(t[[]], toks).value != []
    ensures SetTokens(t, toks, Some(e)).tree == Grafted(t, Address(t[[]], toks).value, 1, e)
  {
    SetSucceedsExactly(t, toks, e);
    if toks == [] {
      assert [] + [Idx(0)] == [Idx(0)];
    } else {
      SetWalkGrafts(t, [], toks, Some(e));
      TargetShape(t[[]], [], toks);
    }
  }

  /**
   * A successful set of a scalar is one update of the flat map; besides, only proper prefixes of
   * the address become containers, and nothing else changes.
   */
  lemma SetRefinesFlatMap(t: Tree, path: string, v: Scalar)
    requires [] in t
    requires SetPath(t, path, Some(Leaf(v))).ok
    ensures var t' := SetPath(t, path, Some(Leaf(v))).tree;
      var n := Address(t[[]], Tokens(path));
      && n.Some? && n.value != []
      && Scalars(t') == Scalars(t)[n.value := v]
      && (forall p :: p in t && p != n.value ==> p in t' && t'[p] == t[p])
      && (forall p :: p in t' && p !in t && p != n.value ==> 0 < |p| < |n.value| && p == n.value[..|p|])
  {
    var toks := Tokens(path);
    SetWrites(t, toks, Leaf(v));
    GraftedScalar(t, Address(t[[]], toks).value, v);
  }

  /** A failed set adds, changes and removes no scalar: at most a chain of empty containers appears. */
  lemma FailedSetKeepsScalars(t: Tree, path: string, request: Option<Entry>)
    requires [] in t
    requires !SetPath(t, path, request).ok
    ensures var t' := SetPath(t, path, request).tree;
      EmptyChain(t, t', []) && Scalars(t') == Scalars(t)
  {
    var toks := Tokens(path);
    if toks != [] {
      SetWalkFails(t, [], toks, request);
    }
    assert Scalars(SetPath(t, path, request).tree) == Scalars(t);
  }

  /** Success or not, set keeps the tree well formed, keeps every node's type, and keeps the height bound. */
  lemma {:induction false} SetWalkKeeps(t: Tree, a: Addr, toks: seq<string>, request: Option<Entry>)
    requires WellFormed(t) && a in t && toks != [] && |a| <= MAX_DEPTH - 2
    ensures var t' := SetWalk(t, a, toks, request).tree;
      WellFormed(t') && Extends(t, t') && (Bounded(t) ==> Bounded(t'))
    decreases |toks|
  {
    var step := Put(t, a, Some(toks[0]), 0, if |toks| == 1 then request else Some(ContainerFor(toks[1])));
    PutKeeps(t, a, Some(toks[0]), 0, if |toks| == 1 then request else Some(ContainerFor(toks[1])));
    if |toks| > 1 && step.Stored? && |step.at| < MAX_DEPTH - 1 {
      SetWalkKeeps(step.tree, step.at, toks[1..], request);
      ExtendsTransitive(t, step.tree, SetWalk(t, a, toks, request).tree);
    }
  }

  lemma SetKeeps(t: Tree, path: string, request: Option<Entry>)
    requires WellFormed(t)
    ensures var t' := SetPath(t, path, request).tree;
      WellFormed(t') && Extends(t, t') && (Bounded(t) ==> Bounded(t'))
  {
    if Tokens(path) == [] {
      PutKeeps(t, [], None, 0, request);
    } else {
      SetWalkKeeps(t, [], Tokens(path), request);
    }
  }

  // ----- get

  /** Names meet dicts and indices meet arrays wherever the address meets an existing container. */
  ghost predicate Consistent(t: Tree, n: Addr, lo: nat) {
    forall j :: lo < j < |n| && n[..j] in t && !t[n[..j]].Leaf? ==> t[n[..j]] == KindOf(n[j])
  }

  /**
   * The structural lookup of address n from the present address n[..j] on: found when present;
   * a missing child of a container ends the search; a scalar on the way is an error, unless an
   * index that is not the last step is asked of it.
   */
  ghost function Lookup(t: Tree, n: Addr, j: nat): GetResult
    requires j < |n| && n[..j] in t
    decreases |n| - j
  {
    if t[n[..j]].Leaf? then if n[j].Idx? && j + 1 < |n| then NotFound else GetError
    else if n[..j + 1] !in t then NotFound
    else if j + 1 == |n| then Found(n)
    else Lookup(t, n, j + 1)
  }

  /** In a well-formed tree the lookup finds exactly the present addresses. */
  lemma {:induction false} LookupFindsPresent(t: Tree, n: Addr, j: nat)
    requires WellFormed(t) && j < |n| && n[..j] in t
    ensures Lookup(t, n, j) == Found(n) <==> n in t
    ensures Lookup(t, n, j).Found? ==> Lookup(t, n, j) == Found(n)
    decreases |n| - j
  {
    assert n[..|n|] == n;
    if n in t {
      PrefixClosed(t, n, j + 1);
      assert n[..j + 1] == n[..j] + [n[j]];
    }
    if !t[n[..j]].Leaf? && n[..j + 1] in t && j + 1 < |n| {
      LookupFindsPresent(t, n, j + 1);
    }
  }

  /** The token loop with its carried index computes the structural lookup on consistent paths. */
  lemma {:induction false} GetWalkLooksUp(t: Tree, a: Addr, toks: seq<string>, index: nat)
    requires a in t && toks != []
    requires Target(t[a], a, toks).Some?
    requires Consistent(t, Target(t[a], a, toks).value, |a|)
    requires t[a].Array? && !Bracketed(toks[0]) ==> index == 0
    requires t[a].Dict? && Bracketed(toks[0]) ==> |toks| == 1
    ensures var n := Target(t[a], a, toks).value;
      |a| < |n| && n[..|a|] == a && GetWalk(t, a, toks, index) == Lookup(t, n, |a|)
    decreases |toks|
  {
    TargetShape(t[a], a, toks);
    var n := Target(t[a], a, toks).value;
    var c := a + [n[|a|]];
    assert n[..|a| + 1] == c;
    if |toks| == 1 {
      assert c == n;
    } else if c in t {
      var k := ContainerFor(toks[1]);
      assert Target(k, c, toks[1..]) == Some(n);
      var parsed := if t[a].Array? && Bracketed(toks[0]) then ArrayIndex(toks[0]) else Some(index);
      if t[c].Leaf? {
        assert n[|c|].Idx? <==> Bracketed(toks[1]);
      } else {
        assert t[n[..|c|]] == KindOf(n[|c|]);
        GetWalkLooksUp(t, c, toks[1..], parsed.value);
      }
    }
  }

  /**
   * A path that get can follow: its address is well formed and meets containers of the right kind.
   * Below a dict root a bracketed first token has to be the only one.
   */
  ghost predicate Gettable(t: Tree, toks: seq<string>)
    requires [] in t
  {
    && toks != []
    && (t[[]].Dict? && Bracketed(toks[0]) ==> |toks| == 1)
    && Address(t[[]], toks).Some?
    && Consistent(t, Address(t[[]], toks).value, 0)
  }

  /** `sconf_get` is the structural lookup of the path's address; it finds it exactly when it is present. */
  lemma GetRefinesLookup(t: Tree, path: string)
    requires WellFormed(t) && Gettable(t, Tokens(path))
    ensures var n := Address(t[[]], Tokens(path)).value;
      && n != []
      && GetPath(t, path) == Lookup(t, n, 0)
      && (GetPath(t, path) == Found(n) <==> n in t)
      && (GetPath(t, path).Found? ==> GetPath(t, path) == Found(n))
  {
    GetWalkLooksUp(t, [], Tokens(path), 0);
    LookupFindsPresent(t, Address(t[[]], Tokens(path)).value, 0);
  }

  /** What get finds, later writers leave in place, whether or not the path is consistent. */
  lemma {:induction false} GetWalkStable(t: Tree, t': Tree, a: Addr, toks: seq<string>, index: nat)
    requires Extends(t, t') && a in t && toks != []
    requires GetWalk(t, a, toks, index).Found?
    ensures GetWalk(t', a, toks, index) == GetWalk(t, a, toks, index)
    ensures GetWalk(t, a, toks, index).at in t
    decreases |toks|
  {
    assert TypeOf(t'[a]) == TypeOf(t[a]);
    if |toks| > 1 {
      var parsed := if t[a].Array? && Bracketed(toks[0]) then ArrayIndex(toks[0]) else Some(index);
      var c := a + [if t[a].Dict? then Key(toks[0]) else Idx(parsed.value)];
      GetWalkStable(t, t', c, toks[1..], parsed.value);
    }
  }

  lemma GetStable(t: Tree, t': Tree, path: string)
    requires [] in t && Extends(t, t')
    requires GetPath(t, path).Found?
    ensures GetPath(t', path) == GetPath(t, path)
    ensures GetPath(t, path).at in t
  {
    if Tokens(path) != [] {
      GetWalkStable(t, t', [], Tokens(path), 0);
    }
  }

  // ----- set, then get

  /** The scalar that a get delivers, if it delivers one. */
  function ScalarAt(t: Tree, r: GetResult): Option<Scalar> {
    if r.Found? && r.at in t && t[r.at].Leaf? then Some(t[r.at].value) else None
  }

  /** Below a dict root, a bracketed first token is followed by nothing. */
  predicate PlainStart(root: Entry, toks: seq<string>) {
    root.Dict? && toks != [] && Bracketed(toks[0]) ==> |toks| == 1
  }

  lemma SettableIsConsistent(t: Tree, n: Addr, e: Entry)
    requires n != [] && Settable(t, n, 0, e)
    ensures Consistent(t, n, 0)
    ensures Consistent(Grafted(t, n, 1, e), n, 0)
  {
    forall j | 0 < j < |n|
      ensures n[..j] in t ==> t[n[..j]] == KindOf(n[j])
      ensures n[..j] in Grafted(t, n, 1, e) ==> Grafted(t, n, 1, e)[n[..j]] == KindOf(n[j])
    {
      assert Admits(t, n[..j], KindOf(n[j]));
      GraftedEntries(t, n, e, n[..j]);
      assert |n[..j]| == j;
    }
  }

  /**
   * After a successful set the address holds the new entry. Get finds it on the same path exactly
   * when the start is plain; otherwise it reports "not found", as if nothing had been set.
   */
  lemma SetThenGet(t: Tree, path: string, e: Entry)
    requires WellFormed(t)
    requires SetPath(t, path, Some(e)).ok
    ensures var t' := SetPath(t, path, Some(e)).tree;
      var n := Address(t[[]], Tokens(path));
      && n.Some? && n.value in t' && t'[n.value] == e
      && (GetPath(t', path) == Found(n.value) <==> PlainStart(t[[]], Tokens(path)))
      && (!PlainStart(t[[]], Tokens(path)) ==> GetPath(t', path) == NotFound)
  {
    var toks := Tokens(path);
    SetWrites(t, toks, e);
    SetKeeps(t, path, Some(e));
    var n := Address(t[[]], toks).value;
    var t' := SetPath(t, path, Some(e)).tree;
    GraftedEntries(t, n, e, n);
    GraftedEntries(t, n, e, []);
    if toks != [] && PlainStart(t[[]], toks) {
      SettableIsConsistent(t, n, e);
      assert n[..|n|] == n;
      GetRefinesLookup(t', path);
    }
  }

  /** What get finds lies below the node where it starts. */
  lemma {:induction false} GetWalkDescends(t: Tree, a: Addr, toks: seq<string>, index: nat)
    requires a in t && toks != [] && GetWalk(t, a, toks, index).Found?
    ensures var c := GetWalk(t, a, toks, index).at;
      c in t && |a| < |c| && c[..|a|] == a
    decreases |toks|
  {
    if |toks| > 1 {
      var parsed := if t[a].Array? && Bracketed(toks[0]) then ArrayIndex(toks[0]) else Some(index);
      var b := a + [if t[a].Dict? then Key(toks[0]) else Idx(parsed.value)];
      GetWalkDescends(t, b, toks[1..], parsed.value);
      var c := GetWalk(t, a, toks, index).at;
      assert c[..|a|] == c[..|b|][..|a|] == a;
    }
  }

  /** What get finds in a later tree at an address that was there before, it found before. */
  lemma {:induction false} GetWalkBack(t: Tree, t': Tree, a: Addr, toks: seq<string>, index: nat)
    requires WellFormed(t) && Extends(t, t') && a in t && toks != []
    requires GetWalk(t', a, toks, index).Found? && GetWalk(t', a, toks, index).at in t
    ensures GetWalk(t, a, toks, index) == GetWalk(t', a, toks, index)
    decreases |toks|
  {
    assert TypeOf(t'[a]) == TypeOf(t[a]);
    if |toks| > 1 {
      var parsed := if t'[a].Array? && Bracketed(toks[0]) then ArrayIndex(toks[0]) else Some(index);
      var b := a + [if t'[a].Dict? then Key(toks[0]) else Idx(parsed.value)];
      GetWalkDescends(t', b, toks[1..], parsed.value);
      PrefixClosed(t, GetWalk(t', a, toks, index).at, |b|);
      GetWalkBack(t, t', b, toks[1..], parsed.value);
    }
  }

  lemma GetBack(t: Tree, t': Tree, path: string)
    requires WellFormed(t) && Extends(t, t')
    requires GetPath(t', path).Found? && GetPath(t', path).at in t
    ensures GetPath(t, path) == GetPath(t', path)
  {
    assert TypeOf(t'[[]]) == TypeOf(t[[]]);
    if Tokens(path) != [] {
      GetWalkBack(t, t', [], Tokens(path), 0);
    }
  }

  /** Every path whatsoever that does not lead to the new scalar delivers the scalar that it delivered before. */
  lemma SetKeepsOtherPaths(t: Tree, path: string, v: Scalar, other: string)
    requires WellFormed(t)
    requires SetPath(t, path, Some(Leaf(v))).ok
    ensures var t' := SetPath(t, path, Some(Leaf(v))).tree;
      var n := Address(t[[]], Tokens(path));
      && n.Some?
      && (GetPath(t', other) != Found(n.value) ==> ScalarAt(t', GetPath(t', other)) == ScalarAt(t, GetPath(t, other)))
  {
    hide SetTokens, GetTokens, Tokens, Address;
    var t' := SetPath(t, path, Some(Leaf(v))).tree;
    SetKeeps(t, path, Some(Leaf(v)));
    SetRefinesFlatMap(t, path, v);
    var r := GetPath(t', other);
    if GetPath(t, other).Found? {
      GetStable(t, t', other);
    } else if r.Found? && r.at in t {
      GetBack(t, t', other);
    } else if r.Found? && r.at in t' && t'[r.at].Leaf? {
      assert r.at in Scalars(t');
    }
  }

  /** In particular, every path that get can follow to another address. */
  lemma SetKeepsOtherAddresses(t: Tree, path: string, v: Scalar, other: string)
    requires WellFormed(t)
    requires SetPath(t, path, Some(Leaf(v))).ok
    requires Gettable(SetPath(t, path, Some(Leaf(v))).tree, Tokens(other))
    requires Address(t[[]], Tokens(other)) != Address(t[[]], Tokens(path))
    ensures var t' := SetPath(t, path, Some(Leaf(v))).tree;
      ScalarAt(t', GetPath(t', other)) == ScalarAt(t, GetPath(t, other))
  {
    hide SetTokens, GetTokens, Tokens, Address, Consistent;
    SetKeeps(t, path, Some(Leaf(v)));
    SetKeepsOtherPaths(t, path, v, other);
    SetThenGet(t, path, Leaf(v));
    GetRefinesLookup(SetPath(t, path, Some(Leaf(v))).tree, other);
  }

  // ----- a path that is written but not found

  const EMPTY_DICT: Tree := map[[] := Dict]

  /** The path "[0].a". */
  const BRACKET_PATH := "[0].a"

  lemma BracketPath()
    ensures Tokens(BRACKET_PATH) == ["[0]", "a"]
    ensures Address(Dict, ["[0]", "a"]) == Some([Key("[0]"), Key("a")])
    ensures WellFormed(EMPTY_DICT) && !PlainStart(Dict, ["[0]", "a"])
  {
    hide Tokens;
    var toks := ["[0]", "a"];
    assert toks[1..] == ["a"] && Join(["a"]) == "a";
    assert Join(toks) == "[0]" + "." + Join(["a"]) == BRACKET_PATH;
    TokensOfJoin(toks);
    assert [] + [Key("[0]")] == [Key("[0]")];
    assert [Key("[0]")] + [Key("a")] == [Key("[0]"), Key("a")];
    assert Target(Dict, [Key("[0]")], ["a"]) == Some([Key("[0]"), Key("a")]);
    assert forall a: Addr, s: Seg :: a + [s] != [];
  }

  /** Below an empty dict, setting this path succeeds, and getting it finds nothing. */
  lemma BracketIsLost(v: Scalar)
    ensures var r := SetPath(EMPTY_DICT, BRACKET_PATH, Some(Leaf(v)));
      && r.ok
      && [Key("[0]"), Key("a")] in r.tree && r.tree[[Key("[0]"), Key("a")]] == Leaf(v)
      && GetPath(r.tree, BRACKET_PATH) == NotFound
  {
    hide Tokens, SetTokens, GetTokens, Address, PlainStart;
    BracketPath();
    var n := [Key("[0]"), Key("a")];
    assert n[..1] == [Key("[0]")] && n[..2] == n;
    assert Settable(EMPTY_DICT, n, 0, Leaf(v));
    SetSucceedsExactly(EMPTY_DICT, ["[0]", "a"], Leaf(v));
    SetThenGet(EMPTY_DICT, BRACKET_PATH, Leaf(v));
  }
}
