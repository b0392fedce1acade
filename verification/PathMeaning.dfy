/**
 * Paths and addresses, token by token: which address a path stands for, exactly when and what set
 * writes there, and what a malformed index in a path means for set and get.
 */
module PathMeaning {

  import opened Basics
  import opened CText
  import opened Convert
  import opened Numerals
  import opened ConfigTree
  import opened PathSpec
  import opened PathLaws

  // ----- the address of a path, token by token

  /**
   * The child that a token stands for in a container: in a dict the one with its text as the name, in
   * an array the one at its index, cut down to 32 bits, or the first one if there are no brackets.
   */
  ghost predicate StandsIn(container: Entry, tok: string, s: Seg) {
    match container
    case Dict => s == Key(tok)
    case Array =>
      if tok != "" && tok[0] == '[' then
        s.Idx? && exists v :: IsIndex(tok, v) && 0 <= v <= 0x7fff_ffff_ffff_ffff && s.index == v % 0x1_0000_0000
      else s == Idx(0)
    case Leaf(_) => false
  }

  /** Below the root, a token in brackets is asked of an array, and any other of a dict. */
  ghost predicate StandsFor(root: Entry, toks: seq<string>, n: Addr) {
    if toks == [] then root.Array? && n == [Idx(0)]
    else
      && |n| == |toks|
      && StandsIn(root, toks[0], n[0])
      && forall k :: 0 < k < |toks| ==>
           StandsIn(if toks[k] != "" && toks[k][0] == '[' then Array else Dict, toks[k], n[k])
  }

  lemma ResolveExactly(e: Entry, tok: string, s: Seg)
    ensures Resolve(e, Some(tok), 0) == Some(s) <==> StandsIn(e, tok, s)
  {
    hide IsIndex, ArrayIndex;
    if e.Array? && Bracketed(tok) {
      IndexExactly(tok);
      if ArrayIndex(tok).Some? {
        var v :| IsIndex(tok, v) && 0 <= v <= 0x7fff_ffff_ffff_ffff;
        assert ArrayIndex(tok) == Some(v % 0x1_0000_0000);
      }
    }
  }

  lemma {:induction false} TargetExactly(e: Entry, a: Addr, toks: seq<string>, n: Addr)
    requires toks != []
    ensures Target(e, a, toks) == Some(a + n) <==> StandsFor(e, toks, n)
    decreases |toks|
  {
    hide Resolve, StandsIn;
    if |n| != |toks| {
      TargetShape(e, a, toks);
    } else {
      var s := n[0];
      ResolveExactly(e, toks[0], s);
      TargetShape(e, a, toks);
      if Resolve(e, Some(toks[0]), 0) == Some(s) {
        if |toks| == 1 {
          assert a + [s] == a + n;
        } else {
          TargetExactly(ContainerFor(toks[1]), a + [s], toks[1..], n[1..]);
          assert a + [s] + n[1..] == a + n;
          StandsNext(e, toks, n);
        }
      }
    }
  }

  lemma StandsNext(e: Entry, toks: seq<string>, n: Addr)
    requires |toks| > 1 && |n| == |toks| && StandsIn(e, toks[0], n[0])
    ensures StandsFor(e, toks, n) <==> StandsFor(ContainerFor(toks[1]), toks[1..], n[1..])
  {
    hide StandsIn;
    forall k | 0 < k < |toks|
      ensures toks[1..][k - 1] == toks[k] && n[1..][k - 1] == n[k]
    {
    }
    if StandsFor(ContainerFor(toks[1]), toks[1..], n[1..]) {
      forall k | 0 < k < |toks|
        ensures StandsIn(if toks[k] != "" && toks[k][0] == '[' then Array else Dict, toks[k], n[k])
      {
        assert toks[1..][k - 1] == toks[k];
      }
    }
  }

  /** The address of a path is the one that its tokens stand for. */
  lemma AddressExactly(root: Entry, toks: seq<string>, n: Addr)
    ensures Address(root, toks) == Some(n) <==> StandsFor(root, toks, n)
  {
    hide StandsIn;
    if toks != [] {
      TargetExactly(root, [], toks, n);
      assert [] + n == n;
    }
  }

  // ----- set, exactly

  /** Entries of the same kind: dicts, arrays, or scalars of one type. */
  predicate SameKind(e: Entry, e': Entry) {
    match (e, e')
    case (Dict, Dict) => true
    case (Array, Array) => true
    case (Leaf(v), Leaf(v')) =>
      (v.Str? && v'.Str?) || (v.Int? && v'.Int?) || (v.Bool? && v'.Bool?) || (v.Float? && v'.Float?)
    case _ => false
  }

  /** The entry that the j-th step to n has to find or make. */
  function StepEntry(n: Addr, j: nat, e: Entry): Entry
    requires j <= |n|
  {
    if j == |n| then e else if n[j].Idx? then Array else Dict
  }

  /** The j-th step to n is open. */
  ghost predicate StepOpen(t: Tree, n: Addr, j: nat, e: Entry)
    requires 0 < j <= |n|
  {
    if n[..j] in t then SameKind(t[n[..j]], StepEntry(n, j, e)) else n[j - 1].Idx? ==> n[j - 1].index < 65536
  }

  /** Every step to n finds an entry of its kind, or nothing and then no index from 65536 on. */
  ghost predicate StepsOpen(t: Tree, n: Addr, e: Entry) {
    forall j :: 0 < j <= |n| ==> StepOpen(t, n, j, e)
  }

  lemma StepAdmits(t: Tree, n: Addr, j: nat, e: Entry)
    requires 0 < j <= |n|
    ensures StepOpen(t, n, j, e) <==> Admits(t, n[..j], if j < |n| then KindOf(n[j]) else e)
  {
    assert n[..j][|n[..j]| - 1] == n[j - 1];
  }

  lemma OpenIsSettable(t: Tree, n: Addr, e: Entry)
    ensures StepsOpen(t, n, e) <==> Settable(t, n, 0, e)
  {
    hide StepOpen, Admits, KindOf;
    forall j | 0 < j <= |n|
      ensures StepOpen(t, n, j, e) <==> Admits(t, n[..j], if j < |n| then KindOf(n[j]) else e)
    {
      StepAdmits(t, n, j, e);
    }
  }

  /**
   * Set succeeds exactly if the path stands for an address of less than 20 steps whose steps are all
   * open.
   */
  lemma SetExactly(t: Tree, path: string, e: Entry)
    requires [] in t
    ensures SetPath(t, path, Some(e)).ok <==>
      exists n :: StandsFor(t[[]], Tokens(path), n) && |n| < 20 && StepsOpen(t, n, e)
  {
    hide StandsFor, StepsOpen, Settable, Tokens, SetTokens, Address;
    var toks := Tokens(path);
    SetSucceedsExactly(t, toks, e);
    var n := Address(t[[]], toks);
    if n.Some? {
      AddressExactly(t[[]], toks, n.value);
      OpenIsSettable(t, n.value, e);
    }
    forall n | StandsFor(t[[]], toks, n)
      ensures Address(t[[]], toks) == Some(n)
    {
      AddressExactly(t[[]], toks, n);
    }
  }

  /**
   * Afterwards the address holds the new entry, the steps before it are there as containers of their
   * kinds, and everything else is as it was.
   */
  lemma SetWritesExactly(t: Tree, path: string, e: Entry, n: Addr)
    requires [] in t && SetPath(t, path, Some(e)).ok && StandsFor(t[[]], Tokens(path), n)
    ensures var t' := SetPath(t, path, Some(e)).tree;
      && n != [] && n in t' && t'[n] == e
      && (forall j :: 0 < j < |n| ==> n[..j] in t' && t'[n[..j]] == StepEntry(n, j, e))
      && (forall p :: p in t && p != n ==> p in t' && t'[p] == t[p])
      && (forall p :: p in t' && p !in t ==> |p| <= |n| && p == n[..|p|])
  {
    hide StandsFor, Settable, Grafted, Tokens, SetTokens, Address;
    var toks, t' := Tokens(path), SetPath(t, path, Some(e)).tree;
    AddressExactly(t[[]], toks, n);
    SetWrites(t, toks, e);
    assert n[..|n|] == n;
    forall p
      ensures p in t && p != n ==> p in t' && t'[p] == t[p]
      ensures p in t' && p !in t ==> |p| <= |n| && p == n[..|p|]
    {
      GraftedEntries(t, n, e, p);
    }
    GraftedEntries(t, n, e, n);
    forall j | 0 < j < |n|
      ensures n[..j] in t' && t'[n[..j]] == StepEntry(n, j, e)
    {
      GraftedEntries(t, n, e, n[..j]);
      StepThere(t, n, j, e);
    }
  }

  lemma StepThere(t: Tree, n: Addr, j: nat, e: Entry)
    requires 0 < j < |n| && Settable(t, n, 0, e)
    ensures n[..j] in t ==> t[n[..j]] == KindOf(n[j])
  {
    assert Admits(t, n[..j], KindOf(n[j]));
  }

  // ----- what a failed set leaves

  /** The container that a token needs, as far as it is not the first. */
  function Holder(tok: string): Entry {
    if tok != "" && tok[0] == '[' then Array else Dict
  }

  /**
   * The step from p by this token cannot be made: there is nothing to write, the token stands for no
   * child, something of another kind is there, or the index is too large.
   */
  ghost predicate Stuck(t: Tree, p: Addr, tok: string, want: Option<Entry>) {
    && p in t
    && (want.None? || forall s :: StandsIn(t[p], tok, s) ==>
          var c := p + [s]; if c in t then !SameKind(t[c], want.value) else s.Idx? && s.index >= 65536)
  }

  /** The tree t' is t with the containers on the way from a to p that these tokens need. */
  ghost predicate Leaves(t: Tree, t': Tree, a: Addr, toks: seq<string>, p: Addr) {
    && |a| <= |p| < |a| + |toks| && p[..|a|] == a && a in t
    && (forall k :: 0 <= k < |p| - |a| ==> StandsIn(if k == 0 then t[a] else Holder(toks[k]), toks[k], p[|a| + k]))
    && (forall j :: |a| < j <= |p| ==> p[..j] in t' && t'[p[..j]] == Holder(toks[j - |a|]))
    && (forall q :: q in t ==> q in t' && t'[q] == t[q])
    && (forall q :: q in t' && q !in t ==> |a| < |q| <= |p| && q == p[..|q|])
  }

  /** Why the walk has ended at p. */
  ghost predicate Ended(t: Tree, a: Addr, toks: seq<string>, p: Addr, request: Option<Entry>)
    requires |a| <= |p| < |a| + |toks|
  {
    var k := |p| - |a|;
    |p| == 19 || Stuck(t, p, toks[k], if k + 1 < |toks| then Some(Holder(toks[k + 1])) else request)
  }

  lemma NotMade(t: Tree, a: Addr, tok: string, want: Option<Entry>)
    requires a in t && Put(t, a, Some(tok), 0, want).Refused?
    ensures Stuck(t, a, tok, want)
  {
    forall s | StandsIn(t[a], tok, s) && want.Some?
      ensures var c := a + [s]; if c in t then !SameKind(t[c], want.value) else s.Idx? && s.index >= 65536
    {
      ResolveExactly(t[a], tok, s);
      assert (a + [s])[|a + [s]| - 1] == s;
    }
  }

  lemma Made(t: Tree, a: Addr, tok: string, next: string)
    requires a in t && Put(t, a, Some(tok), 0, Some(ContainerFor(next))).Stored?
    ensures var r := Put(t, a, Some(tok), 0, Some(ContainerFor(next)));
      && |r.at| == |a| + 1 && r.at[..|a|] == a && StandsIn(t[a], tok, r.at[|a|])
      && r.tree == t[r.at := Holder(next)] && (r.at in t ==> t[r.at] == Holder(next))
  {
    var s := Resolve(t[a], Some(tok), 0).value;
    ResolveExactly(t[a], tok, s);
  }

  lemma NothingReached(t: Tree, a: Addr, toks: seq<string>)
    requires a in t && toks != []
    ensures Leaves(t, t, a, toks, a)
  {}

  lemma OneReached(t: Tree, t': Tree, a: Addr, c: Addr, toks: seq<string>)
    requires |toks| > 1 && a in t && |c| == |a| + 1 && c[..|a|] == a && StandsIn(t[a], toks[0], c[|a|])
    requires t' == t[c := Holder(toks[1])] && (c in t ==> t[c] == Holder(toks[1]))
    ensures Leaves(t, t', a, toks, c)
  {
    hide StandsIn, Holder;
    assert c[..|c|] == c;
  }

  lemma EndedFurther(t: Tree, a: Addr, c: Addr, toks: seq<string>, p: Addr, request: Option<Entry>)
    requires |toks| > 1 && |c| == |a| + 1 && |c| <= |p| < |c| + |toks| - 1 && Ended(t, c, toks[1..], p, request)
    ensures Ended(t, a, toks, p, request)
  {
    hide Stuck, Holder;
    assert toks[1..][|p| - |c|] == toks[|p| - |a|];
    assert |p| - |c| + 1 < |toks[1..]| ==> toks[1..][|p| - |c| + 1] == toks[|p| - |a| + 1];
  }

  lemma {:induction false} WalkLeaves(t: Tree, a: Addr, toks: seq<string>, request: Option<Entry>) returns (p: Addr)
    requires a in t && toks != [] && |a| < 19 && !SetWalk(t, a, toks, request).ok
    ensures Leaves(t, SetWalk(t, a, toks, request).tree, a, toks, p)
    ensures |a| <= |p| < |a| + |toks| && Ended(SetWalk(t, a, toks, request).tree, a, toks, p, request)
    decreases |toks|
  {
    hide Put, StandsIn, Stuck, ContainerFor, Leaves;
    p := a;
    var want := if |toks| == 1 then request else Some(ContainerFor(toks[1]));
    SameHolder(toks);
    NothingReached(t, a, toks);
    var step := Put(t, a, Some(toks[0]), 0, want);
    if step.Refused? {
      NotMade(t, a, toks[0], want);
    } else if |toks| > 1 {
      hide Ended;
      Made(t, a, toks[0], toks[1]);
      if |step.at| >= 19 {
        p := step.at;
        OneReached(t, step.tree, a, p, toks);
        DeepEnds(step.tree, a, toks, p, request);
      } else {
        p := WalkLeaves(step.tree, step.at, toks[1..], request);
        LeavesFurther(t, step.tree, SetWalk(t, a, toks, request).tree, a, step.at, toks, p);
        EndedFurther(SetWalk(t, a, toks, request).tree, a, step.at, toks, p, request);
      }
    }
  }

  lemma DeepEnds(t: Tree, a: Addr, toks: seq<string>, p: Addr, request: Option<Entry>)
    requires |a| <= |p| < |a| + |toks| && |p| == 19
    ensures Ended(t, a, toks, p, request)
  {}

  lemma SameHolder(toks: seq<string>)
    ensures forall k :: 0 <= k < |toks| ==> ContainerFor(toks[k]) == Holder(toks[k])
  {}

  lemma LeavesFurther(t: Tree, t1: Tree, t': Tree, a: Addr, c: Addr, toks: seq<string>, p: Addr)
    requires |toks| > 1 && a in t && |c| == |a| + 1 && c[..|a|] == a && StandsIn(t[a], toks[0], c[|a|])
    requires t1 == t[c := Holder(toks[1])] && (c in t ==> t[c] == Holder(toks[1]))
    requires Leaves(t1, t', c, toks[1..], p)
    ensures Leaves(t, t', a, toks, p)
  {
    hide StandsIn, Holder;
    assert p[..|a|] == p[..|c|][..|a|] && p[|a|] == p[..|c|][|a|];
    forall k | 0 < k < |p| - |a|
      ensures StandsIn(Holder(toks[k]), toks[k], p[|a| + k])
    {
      assert toks[1..][k - 1] == toks[k];
      assert StandsIn(if k - 1 == 0 then t1[c] else Holder(toks[1..][k - 1]), toks[1..][k - 1], p[|c| + (k - 1)]);
    }
    forall j | |a| < j <= |p|
      ensures p[..j] in t' && t'[p[..j]] == Holder(toks[j - |a|])
    {
      if j == |c| {
        assert c in t1 && t'[c] == t1[c];
      } else {
        assert toks[1..][j - |c|] == toks[j - |a|];
      }
    }
  }

  /**
   * What a failed set leaves, exactly: the containers that its path needs on the way to some address p,
   * and nothing else. The way ends at p because the next step cannot be made, or because p is 19
   * steps deep; its container is made before the depth is looked at.
   */
  lemma FailedSetExactly(t: Tree, path: string, request: Option<Entry>) returns (p: Addr)
    requires [] in t && Tokens(path) != [] && !SetPath(t, path, request).ok
    ensures Leaves(t, SetPath(t, path, request).tree, [], Tokens(path), p)
    ensures |p| < |Tokens(path)| && Ended(SetPath(t, path, request).tree, [], Tokens(path), p, request)
  {
    hide Tokens, SetWalk, Leaves, Ended;
    p := WalkLeaves(t, [], Tokens(path), request);
  }

  // ----- malformed indices

  /** A bracketed token that is asked of an array, and is no index. */
  ghost predicate BadIndex(root: Entry, toks: seq<string>, j: nat) {
    j < |toks| && Bracketed(toks[j]) && Malformed(toks[j]) && (j > 0 || root.Array?)
  }

  lemma {:induction false} NoTarget(e: Entry, a: Addr, toks: seq<string>, j: nat)
    requires BadIndex(e, toks, j)
    ensures Target(e, a, toks).None?
    decreases |toks|
  {
    hide Malformed, ArrayIndex;
    if j == 0 {
      IndexExactly(toks[0]);
    } else {
      var s := Resolve(e, Some(toks[0]), 0);
      if s.Some? {
        assert toks[1..][j - 1] == toks[j];
        NoTarget(ContainerFor(toks[1]), a + [s.value], toks[1..], j - 1);
      }
    }
  }

  /** Set refuses every path with a malformed index, whatever the tree and the rest of the path are. */
  lemma SetNeedsIndices(t: Tree, path: string, request: Option<Entry>, j: nat)
    requires [] in t && BadIndex(t[[]], Tokens(path), j)
    ensures !SetPath(t, path, request).ok
    ensures EmptyChain(t, SetPath(t, path, request).tree, []) && Scalars(SetPath(t, path, request).tree) == Scalars(t)
  {
    hide Tokens, SetTokens, BadIndex, Target;
    BadFirst(t[[]], Tokens(path), j);
    NoTarget(t[[]], [], Tokens(path), j);
    SetSucceedsExactly(t, Tokens(path), if request.Some? then request.value else Dict);
    FailedSetKeepsScalars(t, path, request);
  }

  lemma BadFirst(root: Entry, toks: seq<string>, j: nat)
    requires BadIndex(root, toks, j)
    ensures toks != []
  {}

  lemma {:induction false} WalkNeedsIndices(t: Tree, a: Addr, toks: seq<string>, index: nat, j: nat)
    requires a in t && j < |toks| && Bracketed(toks[j]) && Malformed(toks[j])
    ensures var r := GetWalk(t, a, toks, index);
      && (r.Found? ==> j == |toks| - 1 && r.at != [] && r.at[|r.at| - 1] == Key(toks[j]) && (j == 0 ==> t[a].Dict?))
      && (j == 0 && t[a].Array? ==> r == GetError)
    decreases |toks|
  {
    hide Malformed, ArrayIndex;
    IndexExactly(toks[j]);
    if j > 0 {
      var parsed := if t[a].Array? && Bracketed(toks[0]) then ArrayIndex(toks[0]) else Some(index);
      if parsed.Some? && !t[a].Leaf? {
        var c := a + [if t[a].Dict? then Key(toks[0]) else Idx(parsed.value)];
        if c in t {
          assert toks[1..][j - 1] == toks[j];
          WalkNeedsIndices(t, c, toks[1..], parsed.value, j - 1);
        }
      }
    }
  }

  /**
   * Get finds nothing on a path with a malformed index. The one exception is a last token that is the
   * name of a dict's child, brackets and all.
   */
  lemma GetNeedsIndices(t: Tree, path: string, j: nat)
    requires [] in t && BadIndex(t[[]], Tokens(path), j)
    ensures var r := GetPath(t, path);
      && (r.Found? ==> j == |Tokens(path)| - 1 && r.at != [] && r.at[|r.at| - 1] == Key(Tokens(path)[j]))
      && (j == 0 ==> r == GetError)
  {
    hide Tokens, Malformed, GetWalk;
    WalkNeedsIndices(t, [], Tokens(path), 0, j);
  }

  lemma BadElement(t: Tree, name: string, tok: string, request: Option<Entry>)
    requires [] in t && IsToken(name) && IsToken(tok) && Bracketed(tok) && Malformed(tok)
    ensures !SetPath(t, name + "." + tok, request).ok
  {
    hide Tokens, SetPath, Malformed, IsToken;
    assert [name, tok][1..] == [tok] && Join([tok]) == tok;
    assert Join([name, tok]) == name + "." + tok;
    TokensOfJoin([name, tok]);
    SetNeedsIndices(t, name + "." + tok, request, 1);
  }

  /** "arr.[a]" and "arr.[]" cannot be set. */
  lemma NoLetters(t: Tree, request: Option<Entry>)
    requires [] in t
    ensures !SetPath(t, "arr.[a]", request).ok && !SetPath(t, "arr.[]", request).ok
  {
    hide SetPath, Malformed, ArrayIndex;
    NoNumbers();
    IndexExactly("[a]");
    IndexExactly("[]");
    BadElement(t, "arr", "[a]", request);
    BadElement(t, "arr", "[]", request);
    assert "arr" + "." + "[a]" == "arr.[a]" && "arr" + "." + "[]" == "arr.[]";
  }
}
