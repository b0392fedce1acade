/** `sconf_set` and `sconf_get` on the heap, with the token loops of src/sconf.c. */
module Paths {

  import opened Basics
  import opened CText
  import opened Convert
  import opened ConfigTree
  import opened PathSpec
  import opened Nodes
  import opened Configs
  import opened Insertion

  predicate SafePath(path: string) {
    forall tok :: tok in Tokens(path) ==> SafeName(tok)
  }

  /** The token that the n-th call of `strtok_r` returns. */
  function NthToken(toks: seq<string>, n: nat): Option<string> {
    if n < |toks| then Some(toks[n]) else None
  }

  /**
   * How far the loop of set has come on the abstract tree: it holds `taken` tokens, stands at
   * address a, and has the last token still to place.
   */
  ghost predicate Setting(t0: Tree, toks: seq<string>, request: Option<Entry>, t: Tree, a: Addr, taken: nat) {
    && taken <= |toks| && taken < MAX_DEPTH
    && [] in t0 && a in t
    && |a| == (if taken == 0 then 0 else taken - 1)
    && (taken == 0 ==> a == [] && t == t0)
    && (taken > 0 ==> SetTokens(t0, toks, request) == SetWalk(t, a, toks[taken - 1..], request))
  }

  lemma SettingInit(t0: Tree, toks: seq<string>, request: Option<Entry>)
    requires [] in t0
    ensures Setting(t0, toks, request, t0, [], 0)
  {}

  lemma SettingStart(t0: Tree, toks: seq<string>, request: Option<Entry>, t: Tree, a: Addr)
    requires Setting(t0, toks, request, t, a, 0) && toks != []
    ensures Setting(t0, toks, request, t, a, 1)
  {
    assert toks[0..] == toks;
  }

  /** The container for the last token is created below a, before the depth is checked. */
  lemma SettingStep(t0: Tree, toks: seq<string>, request: Option<Entry>, t: Tree, a: Addr, taken: nat)
    requires Setting(t0, toks, request, t, a, taken) && 0 < taken < |toks|
    ensures a in t && [] in t0
    ensures match Put(t, a, Some(toks[taken - 1]), 0, Some(ContainerFor(toks[taken])))
      case Refused => SetTokens(t0, toks, request) == SetResult(false, t)
      case Stored(t', c) =>
        c in t' &&
        if taken + 1 >= MAX_DEPTH then SetTokens(t0, toks, request) == SetResult(false, t')
        else Setting(t0, toks, request, t', c, taken + 1)
  {
    PutAddress(t, a, Some(toks[taken - 1]), 0, Some(ContainerFor(toks[taken])));
    assert toks[taken - 1..][1..] == toks[taken..];
  }

  lemma SettingEnd(t0: Tree, toks: seq<string>, request: Option<Entry>, t: Tree, a: Addr)
    requires Setting(t0, toks, request, t, a, |toks|)
    ensures a in t && [] in t0
    ensures SetTokens(t0, toks, request) ==
      match Put(t, a, if toks == [] then None else Some(toks[|toks| - 1]), 0, request)
      case Refused => SetResult(false, t)
      case Stored(t', _) => SetResult(true, t')
  {}

  /** One step of set down the path: the container in which the next token has its place. */
  method Descend(config: Config, curr: string, next: string, parent: Node,
      ghost t0: Tree, ghost toks: seq<string>, ghost request: Option<Entry>, ghost a: Addr, ghost taken: nat)
    returns (child: Node?, ghost c: Addr)
    requires config.Valid() && a in config.ledger.at && config.ledger.at[a] == parent && SafeName(curr) && next != ""
    requires 0 < taken < |toks| && curr == toks[taken - 1] && next == toks[taken]
    requires Setting(t0, toks, request, config.ledger.tree, a, taken)
    modifies config`ledger, config`live, config.ledger.owner.Keys
    ensures config.Valid() && config.root == old(config.root)
    ensures fresh(config.ledger.owner.Keys - old(config.ledger).owner.Keys)
    ensures Keeps(old(config.ledger).at, config.ledger.at)
    ensures [] in t0
    ensures child == null || taken + 1 >= MAX_DEPTH ==>
      SetTokens(t0, toks, request) == SetResult(false, config.ledger.tree)
    ensures child != null ==> c in config.ledger.at && c in config.ledger.tree && config.ledger.at[c] == child
    ensures child != null && taken + 1 < MAX_DEPTH ==> Setting(t0, toks, request, config.ledger.tree, c, taken + 1)
  {
    hide Linked, Owned, Holds, Node.Valid, NoLeak, Config.Valid, Put, SetTokens, SetWalk, Setting, Tokens, Keeps;
    var currType := if next[0] == '[' then Array else Dict;
    SettingStep(t0, toks, request, config.ledger.tree, a, taken);
    ghost var put := Put(config.ledger.tree, a, Some(curr), 0, Some(currType));
    child := CreateAndInsert(config, Some(curr), Some(currType), parent, 0, a);
    c := if put.Stored? then put.at else [];
  }

  /** `sconf_set` with a path and a value of some type. */
  method Set(config: Config, path: string, request: Option<Entry>) returns (ok: bool)
    requires config.Valid() && SafePath(path)
    modifies config`ledger, config`live, config.ledger.owner.Keys
    ensures config.Valid() && config.root == old(config.root)
    ensures fresh(config.ledger.owner.Keys - old(config.ledger).owner.Keys)
    ensures Keeps(old(config.ledger).at, config.ledger.at)
    ensures [] in old(config.ledger).tree
    ensures SetResult(ok, config.ledger.tree) == SetPath(old(config.ledger).tree, path, request)
  {
    hide Linked, Owned, Holds, Node.Valid, NoLeak, Config.Valid, Put, SetTokens, SetWalk, Setting, Tokens, Keeps;
    ghost var t0, at0 := config.ledger.tree, config.ledger.at;
    KeepsAll(at0);
    var toks := Tokens(path);
    var parent := config.root;
    var parentIndex := 0;
    var depth := 1;
    var taken := 0;
    var next := NthToken(toks, taken);
    var curr := None;
    ghost var a: Addr := [];
    RootPresent(config);
    SettingInit(t0, toks, request);
    while next != None
      invariant config.Valid() && config.root == old(config.root)
      invariant fresh(config.ledger.owner.Keys - old(config.ledger).owner.Keys)
      invariant Keeps(at0, config.ledger.at)
      invariant a in config.ledger.at && a in config.ledger.tree && config.ledger.at[a] == parent
      invariant taken <= |toks| && taken < MAX_DEPTH && [] in t0
      invariant Setting(t0, toks, request, config.ledger.tree, a, taken)
      invariant next == NthToken(toks, taken) && depth == taken + 1
      invariant curr == if taken == 0 then None else Some(toks[taken - 1])
      decreases |toks| - taken
    {
      assert IsToken(toks[taken]);
      if curr != None {
        ghost var at := config.ledger.at;
        var child;
        child, a := Descend(config, curr.value, next.value, parent, t0, toks, request, a, taken);
        KeepsTransitive(at0, at, config.ledger.at);
        if child == null {
          return false;
        }
        parent := child;
      } else {
        SettingStart(t0, toks, request, config.ledger.tree, a);
      }
      if depth >= MAX_DEPTH {
        return false;
      }
      depth := depth + 1;
      curr := next;
      taken := taken + 1;
      next := NthToken(toks, taken);
    }
    SettingEnd(t0, toks, request, config.ledger.tree, a);
    ghost var at := config.ledger.at;
    var node := CreateAndInsert(config, curr, request, parent, parentIndex, a);
    KeepsTransitive(at0, at, config.ledger.at);
    return node != null;
  }

  lemma RootPresent(config: Config)
    requires config.Valid()
    ensures [] in config.ledger.at && [] in config.ledger.tree && config.ledger.at[[]] == config.root
  {
    assert Holds(config.ledger, []);
  }

  // ----- get

  /** The part of a get step that is left once the token has been looked at for an index. */
  ghost function GetRest(t: Tree, a: Addr, toks: seq<string>, index: nat): GetResult
    requires a in t && toks != []
  {
    if |toks| > 1 && Bracketed(toks[0]) && !t[a].Array? then NotFound
    else if t[a].Leaf? then GetError
    else
      var c := a + [if t[a].Dict? then Key(toks[0]) else Idx(index)];
      if c !in t then NotFound
      else if |toks| == 1 then Found(c)
      else GetWalk(t, c, toks[1..], index)
  }

  ghost predicate Getting(t: Tree, toks: seq<string>, a: Addr, index: nat, taken: nat) {
    && taken <= |toks| && [] in t && a in t
    && (taken == 0 ==> a == [] && index == 0)
    && (taken > 0 ==> GetTokens(t, toks) == GetRest(t, a, toks[taken - 1..], index))
  }

  /** The next token is looked at for an index, at the node that the search has reached. */
  lemma GettingStep(t: Tree, toks: seq<string>, a: Addr, index: nat, taken: nat)
    requires taken < |toks| && a in t && [] in t && toks[taken] != ""
    requires GetTokens(t, toks) == GetWalk(t, a, toks[taken..], index)
    ensures
      if t[a].Array? && Bracketed(toks[taken]) then
        match ArrayIndex(toks[taken])
        case None => GetTokens(t, toks) == GetError
        case Some(i) => Getting(t, toks, a, i, taken + 1)
      else Getting(t, toks, a, index, taken + 1)
  {}

  lemma GettingRest(t: Tree, toks: seq<string>, a: Addr, index: nat, taken: nat)
    requires Getting(t, toks, a, index, taken) && 0 < taken < |toks|
    ensures toks[taken - 1..][0] == toks[taken - 1] && toks[taken - 1..][1..] == toks[taken..]
  {}

  /** One search for the child that the current token or index denotes. */
  method SearchNext(parent: Node, curr: Option<string>, parentIndex: uint32, ghost l: Ledger, ghost a: Addr)
    returns (ok: bool, found: Option<Node>)
    requires Linked(l) && a in l.at && l.at[a] == parent
    ensures a in l.tree
    ensures ok <==> l.tree[a].Array? || (l.tree[a].Dict? && curr.Some?)
    ensures ok ==> var c := a + [if l.tree[a].Dict? then Key(curr.value) else Idx(parentIndex)];
      (c in l.tree <==> found.Some?) && (found.Some? ==> c in l.at && l.at[c] == found.value)
  {
    hide Linked, Owned, Holds;
    OwnsItself'(l, a);
    if parent.value.DictValue? {
      ok, found := parent.DictSearch(curr);
      if ok {
        ChildPresent(l, a, Key(curr.value));
      }
    } else if parent.value.ArrayValue? {
      ok, found := parent.ArraySearch(parentIndex);
      ChildPresent(l, a, Idx(parentIndex));
    } else {
      return false, None;
    }
  }

  lemma ChildPresent(l: Ledger, a: Addr, s: Seg)
    requires Linked(l) && a in l.at
    ensures a + [s] in l.tree <==> s in l.at[a].kids
    ensures s in l.at[a].kids ==> a + [s] in l.at && l.at[a + [s]] == l.at[a].kids[s]
  {
    assert Holds(l, a);
    assert a + [s] in l.at ==> Holds(l, a + [s]);
  }

  /** `sconf_get`: 1 and the node when found, 0 when not found, -1 on an error. */
  method Get(config: Config, path: string) returns (r: int, node: Option<Node>)
    requires config.Valid()
    ensures [] in config.ledger.tree
    ensures match GetPath(config.ledger.tree, path)
      case Found(c) => r == 1 && c in config.ledger.at && node == Some(config.ledger.at[c])
      case NotFound => r == 0
      case GetError => r == -1
  {
    hide Linked, Owned, Holds, Node.Valid, NoLeak, GetTokens, GetWalk, Tokens;
    ghost var t := config.ledger.tree;
    var toks := Tokens(path);
    var parent := config.root;
    var parentIndex: uint32 := 0;
    var taken := 0;
    var next := NthToken(toks, taken);
    var curr := None;
    ghost var a: Addr := [];
    RootPresent(config);
    while next != None
      invariant a in config.ledger.at && config.ledger.at[a] == parent
      invariant Getting(t, toks, a, parentIndex, taken)
      invariant next == NthToken(toks, taken)
      invariant curr == if taken == 0 then None else Some(toks[taken - 1])
      decreases |toks| - taken
    {
      assert IsToken(toks[taken]);
      if curr != None {
        assert IsToken(toks[taken - 1]);
        GettingRest(t, toks, a, parentIndex, taken);
        OwnsItself'(config.ledger, a);
        if curr.value[0] == '[' && !parent.value.ArrayValue? {
          return 0, None;
        }
        var ok, found := SearchNext(parent, curr, parentIndex, config.ledger, a);
        if !ok {
          return -1, None;
        }
        if found.None? {
          return 0, None;
        }
        a := a + [if parent.value.DictValue? then Key(curr.value) else Idx(parentIndex)];
        parent := found.value;
      } else {
        GettingStart(t, toks);
      }
      OwnsItself'(config.ledger, a);
      GettingStep(t, toks, a, parentIndex, taken);
      if parent.value.ArrayValue? && next.value[0] == '[' {
        var index := ArrayIndex(next.value);
        if index.None? {
          return -1, None;
        }
        parentIndex := index.value;
      }
      curr := next;
      taken := taken + 1;
      next := NthToken(toks, taken);
    }
    GettingEnd(t, toks, a, parentIndex);
    var ok, found := SearchNext(parent, curr, parentIndex, config.ledger, a);
    if !ok {
      return -1, None;
    }
    if found.Some? {
      return 1, found;
    }
    return 0, None;
  }

  lemma GettingStart(t: Tree, toks: seq<string>)
    requires [] in t && toks != []
    ensures GetTokens(t, toks) == GetWalk(t, [], toks[0..], 0)
  {
    assert toks[0..] == toks;
  }

  lemma GettingEnd(t: Tree, toks: seq<string>, a: Addr, index: nat)
    requires Getting(t, toks, a, index, |toks|)
    ensures GetTokens(t, toks) ==
      if t[a].Leaf? || (t[a].Dict? && toks == []) then GetError
      else
        var c := a + [if t[a].Dict? then Key(toks[|toks| - 1]) else Idx(index)];
        if c in t then Found(c) else NotFound
  {
    if toks == [] {
      assert [] + [Idx(0)] == [Idx(0)];
    }
  }
}
