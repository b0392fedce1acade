/**
 * Setting and getting by dotted path, on the abstract tree. `SetTokens` and `GetTokens` follow the
 * token loops of `sconf_set` and `sconf_get`; the lemmas relate them to the flat map.
 */
module PathSpec {

  import opened Basics
  import opened CText
  import opened Convert
  import opened ConfigTree

  // ----- the two walks

  /** The kind of container in which a token names a child. */
  function ContainerFor(tok: string): Entry {
    if Bracketed(tok) then Array else Dict
  }

  datatype SetResult = SetResult(ok: bool, tree: Tree)

  function SetWalk(t: Tree, a: Addr, toks: seq<string>, request: Option<Entry>): (r: SetResult)
    requires a in t && toks != []
    ensures t.Keys <= r.tree.Keys
    decreases |toks|
  {
    if |toks| == 1 then
      match Put(t, a, Some(toks[0]), 0, request)
      case Refused => SetResult(false, t)
      case Stored(t', _) => SetResult(true, t')
    else
      match Put(t, a, Some(toks[0]), 0, Some(ContainerFor(toks[1])))
      case Refused => SetResult(false, t)
      case Stored(t', c) =>
        // the container is created before the depth is checked
        if |c| >= MAX_DEPTH - 1 then SetResult(false, t') else SetWalk(t', c, toks[1..], request)
  }

  function SetTokens(t: Tree, toks: seq<string>, request: Option<Entry>): (r: SetResult)
    requires [] in t
    ensures t.Keys <= r.tree.Keys
  {
    if toks == [] then
      match Put(t, [], None, 0, request)
      case Refused => SetResult(false, t)
      case Stored(t', _) => SetResult(true, t')
    else SetWalk(t, [], toks, request)
  }

  function SetPath(t: Tree, path: string, request: Option<Entry>): (r: SetResult)
    requires [] in t
    ensures t.Keys <= r.tree.Keys
  {
    SetTokens(t, Tokens(path), request)
  }

  datatype GetResult = Found(at: Addr) | NotFound | GetError

  /** The walk carries the last parsed array index from token to token. */
  function GetWalk(t: Tree, a: Addr, toks: seq<string>, index: nat): GetResult
    requires a in t && toks != []
    decreases |toks|
  {
    var parsed := if t[a].Array? && Bracketed(toks[0]) then ArrayIndex(toks[0]) else Some(index);
    if parsed.None? then GetError
    else if |toks| > 1 && Bracketed(toks[0]) && !t[a].Array? then NotFound
    else if t[a].Leaf? then GetError
    else
      var c := a + [if t[a].Dict? then Key(toks[0]) else Idx(parsed.value)];
      if c !in t then NotFound
      else if |toks| == 1 then Found(c)
      else GetWalk(t, c, toks[1..], parsed.value)
  }

  function GetTokens(t: Tree, toks: seq<string>): GetResult
    requires [] in t
  {
    if toks != [] then GetWalk(t, [], toks, 0)
    else match t[[]]
      case Dict => GetError
      case Array => if [Idx(0)] in t then Found([Idx(0)]) else NotFound
      case Leaf(_) => GetError
  }

  function GetPath(t: Tree, path: string): GetResult
    requires [] in t
  {
    GetTokens(t, Tokens(path))
  }

  // ----- the address a path stands for

  /** The address denoted by tokens below a node of the given kind; None when an index is malformed. */
  function Target(e: Entry, a: Addr, toks: seq<string>): Option<Addr>
    requires toks != []
    decreases |toks|
  {
    match Resolve(e, Some(toks[0]), 0)
    case None => None
    case Some(s) =>
      if |toks| == 1 then Some(a + [s]) else Target(ContainerFor(toks[1]), a + [s], toks[1..])
  }

  /** The address of a path. A bracketed first token is a plain key when the root is a dict. */
  function Address(root: Entry, toks: seq<string>): Option<Addr> {
    if toks == [] then if root.Array? then Some([Idx(0)]) else None
    else Target(root, [], toks)
  }

  function KindOf(s: Seg): Entry {
    if s.Idx? then Array else Dict
  }

  lemma {:induction false} TargetShape(e: Entry, a: Addr, toks: seq<string>)
    requires toks != []
    ensures var n := Target(e, a, toks);
      n.Some? ==>
        && |n.value| == |a| + |toks|
        && n.value[..|a|] == a
        && KindOf(n.value[|a|]) == e
        && Resolve(e, Some(toks[0]), 0) == Some(n.value[|a|])
        && (|toks| > 1 ==> KindOf(n.value[|a| + 1]) == ContainerFor(toks[1]))
    decreases |toks|
  {
    var s := Resolve(e, Some(toks[0]), 0);
    if s.Some? && |toks| > 1 {
      var c := a + [s.value];
      TargetShape(ContainerFor(toks[1]), c, toks[1..]);
      var n := Target(ContainerFor(toks[1]), c, toks[1..]);
      if n.Some? {
        assert n.value[..|a|] == n.value[..|c|][..|a|] == a;
        assert n.value[|a|] == n.value[..|c|][|a|] == s.value;
      }
    }
  }

  // ----- set refines the flat map

  /** The containers above n from depth lo on, each of the kind its child needs. */
  ghost function Spine(n: Addr, lo: nat): Tree
    decreases |n| - lo
  {
    if lo >= |n| then map[] else map[n[..lo] := KindOf(n[lo])] + Spine(n, lo + 1)
  }

  lemma {:induction false} SpineEntries(n: Addr, lo: nat, p: Addr)
    ensures p in Spine(n, lo) <==> lo <= |p| < |n| && p == n[..|p|]
    ensures p in Spine(n, lo) ==> Spine(n, lo)[p] == KindOf(n[|p|])
    decreases |n| - lo
  {
    if lo < |n| {
      SpineEntries(n, lo + 1, p);
    }
  }

  /** Every step on the way to n below depth lo may be written, and so may e at n. */
  ghost predicate Settable(t: Tree, n: Addr, lo: nat, e: Entry) {
    forall j :: lo < j <= |n| ==> Admits(t, n[..j], if j < |n| then KindOf(n[j]) else e)
  }

  /** What a failed set may leave behind: new containers only, all on one path below a. */
  ghost predicate EmptyChain(t: Tree, t': Tree, a: Addr) {
    && (forall p :: p in t ==> p in t' && t'[p] == t[p])
    && (forall p :: p in t' && p !in t ==> !t'[p].Leaf? && |a| < |p| && p[..|a|] == a)
    && (forall p, q :: p in t' && p !in t && q in t' && q !in t && |p| <= |q| ==> p == q[..|p|])
  }

  /** The tree after a successful set. */
  ghost function Grafted(t: Tree, n: Addr, lo: nat, e: Entry): Tree {
    (t + Spine(n, lo))[n := e]
  }

  lemma SettableStep(t: Tree, n: Addr, lo: nat, e: Entry)
    requires lo + 1 < |n|
    ensures var c := n[..lo + 1]; var t' := t[c := KindOf(n[lo + 1])];
      Settable(t, n, lo, e) <==> Admits(t, c, KindOf(n[lo + 1])) && Settable(t', n, lo + 1, e)
  {
    var c := n[..lo + 1];
    var t' := t[c := KindOf(n[lo + 1])];
    forall j | lo + 1 < j <= |n|
      ensures n[..j] in t' <==> n[..j] in t
      ensures n[..j] in t ==> t'[n[..j]] == t[n[..j]]
    {
      assert |n[..j]| == j != |c|;
    }
    if Settable(t, n, lo, e) {
      forall j | lo + 1 < j <= |n|
        ensures Admits(t', n[..j], if j < |n| then KindOf(n[j]) else e)
      {
        assert Admits(t, n[..j], if j < |n| then KindOf(n[j]) else e);
      }
    }
    if Admits(t, c, KindOf(n[lo + 1])) && Settable(t', n, lo + 1, e) {
      forall j | lo < j <= |n|
        ensures Admits(t, n[..j], if j < |n| then KindOf(n[j]) else e)
      {
        if j > lo + 1 {
          assert Admits(t', n[..j], if j < |n| then KindOf(n[j]) else e);
        }
      }
    }
  }

  lemma GraftStep(t: Tree, n: Addr, lo: nat, e: Entry)
    requires lo < |n|
    ensures Grafted(t, n, lo, e) == Grafted(t[n[..lo] := KindOf(n[lo])], n, lo + 1, e)
  {
    assert t + Spine(n, lo) == t[n[..lo] := KindOf(n[lo])] + Spine(n, lo + 1);
  }

  lemma ChainStep(t: Tree, a: Addr, s: Seg, e: Entry, t'': Tree)
    requires !e.Leaf?
    requires a + [s] in t ==> t[a + [s]] == e
    requires EmptyChain(t[a + [s] := e], t'', a + [s])
    ensures EmptyChain(t, t'', a)
  {
    var c, t' := a + [s], t[a + [s] := e];
    assert c[..|a|] == a;
    forall p | p in t'' && p !in t
      ensures !t''[p].Leaf? && |a| < |p| && p[..|a|] == a && c == p[..|c|]
    {
      if p != c {
        assert p !in t';
        assert p[..|a|] == p[..|c|][..|a|];
      }
    }
    forall p, q | p in t'' && p !in t && q in t'' && q !in t && |p| <= |q|
      ensures p == q[..|p|]
    {
      if p != c && q != c {
        assert p !in t' && q !in t';
      }
    }
  }

  /** Exactly when the token loop of set succeeds, from any container on. */
  lemma {:induction false} SetWalkSucceeds(t: Tree, a: Addr, toks: seq<string>, request: Option<Entry>)
    requires a in t && toks != [] && |a| <= MAX_DEPTH - 2
    ensures var n := Target(t[a], a, toks);
      SetWalk(t, a, toks, request).ok <==>
        request.Some? && n.Some? && |n.value| < MAX_DEPTH && Settable(t, n.value, |a|, request.value)
    decreases |toks|
  {
    TargetShape(t[a], a, toks);
    var n := Target(t[a], a, toks);
    var s := Resolve(t[a], Some(toks[0]), 0);
    if |toks| == 1 {
      if n.Some? {
        assert n.value[..|a| + 1] == n.value == a + [s.value];
      }
    } else if s.Some? {
      var c, k := a + [s.value], ContainerFor(toks[1]);
      if n.Some? {
        assert n.value[..|a| + 1] == c;
        if request.Some? {
          SettableStep(t, n.value, |a|, request.value);
        }
      }
      if Admits(t, c, k) && |c| < MAX_DEPTH - 1 {
        SetWalkSucceeds(t[c := k], c, toks[1..], request);
      }
    }
  }

  /** A put of a container, when it succeeds, writes the address of the token. */
  lemma ContainerPut(t: Tree, a: Addr, tok: string, k: Entry)
    requires a in t && !k.Leaf?
    ensures var r := Put(t, a, Some(tok), 0, Some(k));
      r.Stored? ==>
        var s := Resolve(t[a], Some(tok), 0);
        && s.Some? && r == Stored(t[a + [s.value] := k], a + [s.value])
        && (a + [s.value] in t ==> t[a + [s.value]] == k)
  {}

  lemma GraftAlone(t: Tree, n: Addr, e: Entry)
    ensures Grafted(t, n, |n|, e) == t[n := e]
  {
    assert t + Spine(n, |n|) == t;
  }

  /** What a successful token loop of set has written. */
  lemma {:induction false} SetWalkGrafts(t: Tree, a: Addr, toks: seq<string>, request: Option<Entry>)
    requires a in t && toks != []
    requires SetWalk(t, a, toks, request).ok
    ensures request.Some? && Target(t[a], a, toks).Some?
    ensures SetWalk(t, a, toks, request).tree == Grafted(t, Target(t[a], a, toks).value, |a| + 1, request.value)
    decreases |toks|
  {
    hide Grafted, Bracketed;
    var s := Resolve(t[a], Some(toks[0]), 0).value;
    var c := a + [s];
    if |toks| == 1 {
      GraftAlone(t, c, request.value);
    } else {
      var k := ContainerFor(toks[1]);
      hide Put, Resolve;
      ContainerPut(t, a, toks[0], k);
      SetWalkGrafts(t[c := k], c, toks[1..], request);
      TargetShape(t[a], a, toks);
      TargetShape(k, c, toks[1..]);
      GraftStep(t, Target(t[a], a, toks).value, |c|, request.value);
    }
  }

  lemma ChainNone(t: Tree, a: Addr)
    ensures EmptyChain(t, t, a)
  {}

  /** What a failed token loop of set leaves behind. */
  lemma {:induction false} SetWalkFails(t: Tree, a: Addr, toks: seq<string>, request: Option<Entry>)
    requires a in t && toks != []
    requires !SetWalk(t, a, toks, request).ok
    ensures EmptyChain(t, SetWalk(t, a, toks, request).tree, a)
    decreases |toks|
  {
    hide Put, EmptyChain, Bracketed;
    ChainNone(t, a);
    if |toks| > 1 {
      var k := ContainerFor(toks[1]);
      var step := Put(t, a, Some(toks[0]), 0, Some(k));
      if step.Stored? {
        ContainerPut(t, a, toks[0], k);
        ChainNone(step.tree, step.at);
        if |step.at| < MAX_DEPTH - 1 {
          SetWalkFails(step.tree, step.at, toks[1..], request);
        }
        ChainStep(t, a, Resolve(t[a], Some(toks[0]), 0).value, k, SetWalk(t, a, toks, request).tree);
      }
    }
  }
}
