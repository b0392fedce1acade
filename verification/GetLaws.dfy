/**
 * Get on every path. A name that meets an array stands for the last index; once this is written
 * out, get is the lookup of an address, except where a bracket meets something that is no array.
 */
module GetLaws {

  import opened Basics
  import opened CText
  import opened Convert
  import opened ConfigTree
  import opened PathSpec
  import opened PathLaws

  /** The token by which a search goes on from an array: a name gives way to the last index. */
  function AtArray(tok: string, index: nat): string {
    if Bracketed(tok) then tok else IndexText(index)
  }

  /** The path with its indices written out, as far as the search gets. */
  function Rewritten(t: Tree, a: Addr, toks: seq<string>, index: nat): (r: seq<string>)
    requires a in t && toks != []
    ensures r != []
    decreases |toks|
  {
    if t[a].Leaf? || (t[a].Dict? && Bracketed(toks[0])) then toks
    else
      var tok := if t[a].Array? then AtArray(toks[0], index) else toks[0];
      var parsed := if t[a].Array? then ArrayIndex(tok) else Some(index);
      if parsed.None? then toks
      else
        var c := a + [if t[a].Dict? then Key(tok) else Idx(parsed.value)];
        if |toks| == 1 || c !in t then [tok] else [tok] + Rewritten(t, c, toks[1..], parsed.value)
  }

  /** Writing out the indices changes nothing for get. */
  lemma {:induction false} GetRewritten(t: Tree, a: Addr, toks: seq<string>, index: nat)
    requires a in t && toks != [] && index < 0x1_0000_0000
    ensures GetWalk(t, a, Rewritten(t, a, toks, index), index) == GetWalk(t, a, toks, index)
    decreases |toks|
  {
    hide ArrayIndex, IndexText;
    IndexTextReads(index);
    if !t[a].Leaf? && !(t[a].Dict? && Bracketed(toks[0])) {
      var tok := if t[a].Array? then AtArray(toks[0], index) else toks[0];
      var parsed := if t[a].Array? then ArrayIndex(tok) else Some(index);
      if parsed.Some? && |toks| > 1 {
        var c := a + [if t[a].Dict? then Key(tok) else Idx(parsed.value)];
        if c in t {
          GetRewritten(t, c, toks[1..], parsed.value);
          assert Rewritten(t, a, toks, index)[1..] == Rewritten(t, c, toks[1..], parsed.value);
        }
      }
    }
  }

  /**
   * Where a search stops for another reason than a missing child: at a malformed index, where a
   * bracket meets no array, and at a scalar. A bracket that ends a path at a dict is a plain name.
   */
  function Stop(t: Tree, b: Addr, tok: string, more: bool): Option<GetResult>
    requires b in t
  {
    if t[b].Array? then if Bracketed(tok) && ArrayIndex(tok).None? then Some(GetError) else None
    else if Bracketed(tok) && more then Some(NotFound)
    else if t[b].Leaf? then Some(GetError)
    else if Bracketed(tok) then Some(if b + [Key(tok)] in t then Found(b + [Key(tok)]) else NotFound)
    else None
  }

  /** The present node to which the first j tokens lead. */
  ghost predicate LeadsTo(t: Tree, a: Addr, toks: seq<string>, j: nat, b: Addr)
    requires a in t && j <= |toks|
  {
    && b in t
    && if j == 0 then b == a else Target(t[a], a, toks[..j]) == Some(b)
  }

  /** The search leads through all tokens, as a lookup of their address. */
  ghost predicate SearchesAll(t: Tree, a: Addr, toks: seq<string>, result: GetResult)
    requires a in t && toks != []
  {
    var n := Target(t[a], a, toks);
    && n.Some? && Consistent(t, n.value, |a|)
    && !(t[a].Dict? && Bracketed(toks[0]))
    && |a| < |n.value| && n.value[..|a|] == a
    && result == Lookup(t, n.value, |a|)
  }

  /** One more step in front of a search. */
  lemma StepSearches(t: Tree, a: Addr, tok: string, s: Seg, rest: seq<string>, result: GetResult)
    requires a in t && !t[a].Leaf? && Resolve(t[a], Some(tok), 0) == Some(s) && KindOf(s) == t[a]
    requires !(t[a].Dict? && Bracketed(tok))
    requires a + [s] in t && rest != [] && SearchesAll(t, a + [s], rest, result)
    requires !t[a + [s]].Leaf? && ContainerFor(rest[0]) == t[a + [s]]
    ensures SearchesAll(t, a, [tok] + rest, result)
  {
    hide ArrayIndex;
    var c, toks := a + [s], [tok] + rest;
    assert toks[1..] == rest && toks[1] == rest[0];
    var n := Target(t[c], c, rest).value;
    assert Target(t[a], a, toks) == Some(n);
    assert n[..|a|] == n[..|c|][..|a|] == a && n[|a|] == n[..|c|][|a|] == s;
    assert n[..|a| + 1] == c;
    TargetShape(t[c], c, rest);
    forall j | |a| < j < |n| && n[..j] in t && !t[n[..j]].Leaf?
      ensures t[n[..j]] == KindOf(n[j])
    {
      if j == |c| {
        assert n[..j] == c && KindOf(n[|c|]) == t[c];
      }
    }
  }

  /** The address to which a step in front leads. */
  lemma StepLeads(t: Tree, a: Addr, tok: string, s: Seg, rest: seq<string>, j: nat, b: Addr)
    requires a in t && Resolve(t[a], Some(tok), 0) == Some(s)
    requires a + [s] in t && rest != [] && j <= |rest| && LeadsTo(t, a + [s], rest, j, b)
    requires j > 0 ==> ContainerFor(rest[0]) == t[a + [s]]
    ensures LeadsTo(t, a, [tok] + rest, j + 1, b)
  {
    hide ArrayIndex;
    var toks := ([tok] + rest)[..j + 1];
    assert toks == [tok] + rest[..j];
    if j > 0 {
      assert toks[1..] == rest[..j] && toks[1] == rest[0];
    }
  }

  /** The first token of a rewritten path fits its node, unless the search stops there. */
  lemma FirstFits(t: Tree, a: Addr, toks: seq<string>, index: nat)
    requires a in t && toks != [] && index < 0x1_0000_0000
    ensures var r := Rewritten(t, a, toks, index);
      && (Stop(t, a, r[0], |r| > 1).None? ==> ContainerFor(r[0]) == t[a] && Resolve(t[a], Some(r[0]), 0).Some?)
      && (Stop(t, a, r[0], |r| > 1).Some? ==>
            r == toks && Stop(t, a, r[0], |r| > 1) == Some(GetWalk(t, a, toks, index)))
  {
    hide ArrayIndex, IndexText;
    IndexTextReads(index);
  }

  /** Every search comes to one of two ends: it leads through all tokens, or it stops at one of them. */
  lemma {:induction false} WalkEnds(t: Tree, a: Addr, toks: seq<string>, index: nat) returns (j: nat, b: Addr)
    requires a in t && toks != [] && index < 0x1_0000_0000
    ensures var r := Rewritten(t, a, toks, index);
      && j <= |r|
      && (j > 0 ==> Stop(t, a, r[0], |r| > 1).None?)
      && (j == |r| ==> SearchesAll(t, a, r, GetWalk(t, a, toks, index)))
      && (j < |r| ==> LeadsTo(t, a, r, j, b) && Stop(t, b, r[j], j + 1 < |r|) == Some(GetWalk(t, a, toks, index)))
    decreases |toks|
  {
    hide ArrayIndex, IndexText;
    var r := Rewritten(t, a, toks, index);
    FirstFits(t, a, toks, index);
    j, b := 0, a;
    if Stop(t, a, r[0], |r| > 1).None? {
      IndexTextReads(index);
      var s := Resolve(t[a], Some(r[0]), 0).value;
      var c := a + [s];
      if |toks| == 1 || c !in t {
        OneStep(t, a, r[0], s);
        j := 1;
      } else {
        var i := if t[a].Array? then s.index else index;
        var rest := Rewritten(t, c, toks[1..], i);
        assert r == [r[0]] + rest;
        FirstFits(t, c, toks[1..], i);
        var k;
        k, b := WalkEnds(t, c, toks[1..], i);
        j := k + 1;
        if k == |rest| {
          StepSearches(t, a, r[0], s, rest, GetWalk(t, c, toks[1..], i));
        } else {
          StepLeads(t, a, r[0], s, rest, k, b);
        }
      }
    }
  }

  /** A search of one step. */
  lemma OneStep(t: Tree, a: Addr, tok: string, s: Seg)
    requires a in t && !t[a].Leaf? && Resolve(t[a], Some(tok), 0) == Some(s) && ContainerFor(tok) == t[a]
    ensures SearchesAll(t, a, [tok], if a + [s] in t then Found(a + [s]) else NotFound)
  {
    var n := a + [s];
    assert n[..|a|] == a && n[..|a| + 1] == n;
  }

  /**
   * Get on every path, with its indices written out: either the path is one that get can follow,
   * and get is the lookup of its address, or get stops at the node to which the first j tokens lead.
   * A path without tokens asks an array root for its first element, and is an error elsewhere.
   */
  lemma GetEverywhere(t: Tree, path: string) returns (j: nat, b: Addr)
    requires WellFormed(t)
    ensures Tokens(path) != [] ==>
      var r := Rewritten(t, [], Tokens(path), 0);
      && j <= |r| && GetPath(t, path) == GetTokens(t, r)
      && (j == |r| ==> Gettable(t, r) && SearchesAll(t, [], r, GetPath(t, path)))
      && (j < |r| ==>
            && b in t && (if j == 0 then b == [] else Address(t[[]], r[..j]) == Some(b))
            && Stop(t, b, r[j], j + 1 < |r|) == Some(GetPath(t, path)))
    ensures Tokens(path) == [] ==>
      if t[[]].Array? then Address(t[[]], []) == Some([Idx(0)]) && GetPath(t, path) == Lookup(t, [Idx(0)], 0)
      else GetPath(t, path) == GetError
  {
    hide Tokens;
    j, b := 0, [];
    if Tokens(path) != [] {
      GetRewritten(t, [], Tokens(path), 0);
      j, b := WalkEnds(t, [], Tokens(path), 0);
    } else {
      assert [Idx(0)][..0] == [] && [Idx(0)][..1] == [Idx(0)];
    }
  }

  // ----- a name that meets an array

  /** The configuration a: [v]. */
  function OneElement(v: Scalar): Tree {
    map[[] := Dict, [Key("a")] := Array, [Key("a"), Idx(0)] := Leaf(v)]
  }

  /** Get finds the first element under the path "a.b", whose address is not there. */
  lemma NameFindsElement(v: Scalar)
    ensures var t := OneElement(v);
      && GetPath(t, "a.b") == Found([Key("a"), Idx(0)])
      && Address(t[[]], Tokens("a.b")) == Some([Key("a"), Key("b")]) && [Key("a"), Key("b")] !in t
  {
    hide Tokens;
    var toks := ["a", "b"];
    assert toks[1..] == ["b"] && Join(["b"]) == "b";
    assert Join(toks) == "a" + "." + Join(["b"]) == "a.b";
    TokensOfJoin(toks);
    var t := OneElement(v);
    assert [] + [Key("a")] == [Key("a")] && [Key("a")] + [Idx(0)] == [Key("a"), Idx(0)];
    assert [Key("a")] + [Key("b")] == [Key("a"), Key("b")];
    assert GetWalk(t, [Key("a")], ["b"], 0) == Found([Key("a"), Idx(0)]);
    assert Target(Dict, [Key("a")], ["b"]) == Some([Key("a"), Key("b")]);
  }
}
