/** `sconf_node_destroy`: every node of a subtree is freed, and each one only once. */
module Teardown {

  import opened ConfigTree
  import opened SparseArrays
  import opened Nodes
  import opened Configs

  /** The nodes at a and below. */
  ghost function Subtree(l: Ledger, a: Addr): set<Node> {
    set b | b in l.at && |a| <= |b| && b[..|a|] == a :: l.at[b]
  }

  /** The nodes below a that hang on one of the given children. */
  ghost function Below(l: Ledger, a: Addr, done: set<Seg>): set<Node> {
    set b | b in l.at && |a| < |b| && b[..|a|] == a && b[|a|] in done :: l.at[b]
  }

  lemma BelowOneMore(l: Ledger, a: Addr, done: set<Seg>, s: Seg)
    requires Linked(l) && a in l.at && s !in done
    ensures Below(l, a, done + {s}) == Below(l, a, done) + Subtree(l, a + [s])
    ensures Subtree(l, a + [s]) !! Below(l, a, done)
  {
    hide Node.Valid, Links;
    var c := a + [s];
    forall b | b in l.at && |a| < |b|
      ensures b[..|a|] == a && b[|a|] == s <==> b[..|c|] == c
    {
      assert b[..|c|] == b[..|a|] + [b[|a|]];
      assert c[..|a|] == a && c[|a|] == s;
      if b[..|c|] == c {
        assert b[..|a|] == b[..|c|][..|a|];
      }
    }
    forall b, b' | b in l.at && b' in l.at && l.at[b] == l.at[b']
      ensures b == b'
    {
      assert Holds(l, b) && Holds(l, b');
    }
  }

  lemma {:induction false} AncestorPresent(l: Ledger, b: Addr, j: nat)
    requires Linked(l) && b in l.at && j <= |b|
    ensures b[..j] in l.at
    decreases |b| - j
  {
    hide Owned, Holds, Node.Valid;
    if j < |b| {
      AncestorPresent(l, b, j + 1);
      assert b[..j + 1] == b[..j] + [b[j]];
    } else {
      assert b[..j] == b;
    }
  }

  lemma BelowAll(l: Ledger, a: Addr)
    requires Linked(l) && a in l.at
    ensures a in l.kids && Subtree(l, a) == Below(l, a, l.kids[a].Keys) + {l.at[a]}
    ensures l.at[a] !in Below(l, a, l.kids[a].Keys)
  {
    hide Node.Valid;
    assert Holds(l, a);
    forall b | b in l.at && |a| <= |b| && b[..|a|] == a
      ensures b == a || (|a| < |b| && b[|a|] in l.kids[a])
      ensures l.at[b] == l.at[a] ==> b == a
    {
      assert Holds(l, b);
      if |a| < |b| {
        AncestorPresent(l, b, |a| + 1);
        assert b[..|a| + 1] == a + [b[|a|]];
      } else {
        assert b[..|b|] == b;
      }
    }
    assert a[..|a|] == a;
  }

  /** No address is longer than m. */
  ghost predicate Shallow(l: Ledger, m: nat) {
    forall b :: b in l.at ==> |b| <= m
  }

  lemma KidFacts(l: Ledger, a: Addr, s: Seg)
    requires Linked(l) && a in l.at
    ensures a in l.kids && l.kids[a] == l.at[a].kids && l.at[a].Valid()
    ensures s in l.kids[a] ==> a + [s] in l.at && l.at[a + [s]] == l.kids[a][s]
  {
    hide Node.Valid;
    assert Holds(l, a);
  }

  /** `sconf_node_destroy`; `free` takes one live node, so no node is freed twice. */
  method Destroy(config: Config, node: Node?, ghost l: Ledger, ghost a: Addr, ghost m: nat)
    requires node != null ==> Linked(l) && config !in l.owner && Shallow(l, m)
    requires node != null ==> a in l.at && l.at[a] == node && Subtree(l, a) <= config.live
    modifies config`live
    ensures node == null ==> config.live == old(config.live)
    ensures node != null ==> config.live == old(config.live) - Subtree(l, a)
    decreases m - |a|, 2
  {
    hide Linked, Node.Valid, Subtree, Below;
    if node == null {
      return;
    }
    KidFacts(l, a, Idx(0));
    BelowAll(l, a);
    match node.value {
      case DictValue(_) => DestroyDict(config, node, l, a, m);
      case ArrayValue(_) => DestroyArray(config, node, l, a, m);
      case LeafValue(_) => NoKids(l, a);
    }
    Free(config, node);
  }

  lemma NoKids(l: Ledger, a: Addr)
    requires Linked(l) && a in l.at && l.at[a].value.LeafValue?
    ensures a in l.kids && l.kids[a].Keys == {} && Below(l, a, l.kids[a].Keys) == {}
  {
    assert Holds(l, a);
  }

  /** `free` on a node. */
  method Free(config: Config, node: Node)
    requires node in config.live
    modifies config`live
    ensures config.live == old(config.live) - {node}
  {
    config.live := config.live - {node};
  }

  /** One more child of the node at a is destroyed. */
  method DestroyKid(config: Config, child: Node, ghost l: Ledger, ghost a: Addr, ghost s: Seg,
      ghost done: set<Seg>, ghost before: set<Node>, ghost m: nat)
    requires Linked(l) && config !in l.owner && Shallow(l, m) && a in l.at
    requires a in l.kids && s in l.kids[a] && l.kids[a][s] == child && s !in done
    requires Subtree(l, a) <= before && config.live == before - Below(l, a, done)
    modifies config`live
    ensures config.live == before - Below(l, a, done + {s})
    decreases m - |a|, 0
  {
    hide Linked, Node.Valid;
    KidFacts(l, a, s);
    BelowOneMore(l, a, done, s);
    KidsSubtree(l, a, s);
    Destroy(config, child, l, a + [s], m);
  }

  lemma KidsSubtree(l: Ledger, a: Addr, s: Seg)
    ensures Subtree(l, a + [s]) <= Subtree(l, a)
  {
    forall b | b in l.at && |a| + 1 <= |b| && b[..|a| + 1] == a + [s]
      ensures b[..|a|] == a
    {
      assert b[..|a|] == b[..|a| + 1][..|a|];
    }
  }

  /** `sconf_node_dict_destroy`. The order in which the tree hands out its entries is left open. */
  method DestroyDict(config: Config, node: Node, ghost l: Ledger, ghost a: Addr, ghost m: nat)
    requires Linked(l) && config !in l.owner && Shallow(l, m)
    requires a in l.at && l.at[a] == node && Subtree(l, a) <= config.live
    requires node.value.DictValue?
    modifies config`live
    ensures a in l.kids && config.live == old(config.live) - Below(l, a, l.kids[a].Keys)
    decreases m - |a|, 1
  {
    hide Linked, Subtree, Below;
    KidFacts(l, a, Idx(0));
    var names := node.value.children.Keys;
    ghost var done: set<Seg> := {};
    BelowNone(l, a);
    while names != {}
      invariant names <= node.value.children.Keys
      invariant done <= l.kids[a].Keys
      invariant forall s :: s in l.kids[a] ==> (s in done <==> s.name !in names)
      invariant config.live == old(config.live) - Below(l, a, done)
      decreases |names|
    {
      var name :| name in names;
      assert Key(name) in l.kids[a];
      DestroyKid(config, node.value.children[name], l, a, Key(name), done, old(config.live), m);
      names := names - {name};
      done := done + {Key(name)};
    }
    assert done == l.kids[a].Keys;
  }

  lemma BelowNone(l: Ledger, a: Addr)
    ensures Below(l, a, {}) == {}
  {}

  /** `sconf_node_array_destroy`. */
  method DestroyArray(config: Config, node: Node, ghost l: Ledger, ghost a: Addr, ghost m: nat)
    requires Linked(l) && config !in l.owner && Shallow(l, m)
    requires a in l.at && l.at[a] == node && Subtree(l, a) <= config.live
    requires node.value.ArrayValue?
    modifies config`live
    ensures a in l.kids && config.live == old(config.live) - Below(l, a, l.kids[a].Keys)
    decreases m - |a|, 1
  {
    hide Linked, Subtree, Below;
    KidFacts(l, a, Idx(0));
    var slots := node.value.slots;
    ghost var done: set<Seg> := {};
    BelowNone(l, a);
    var i := 0;
    while i < slots.size
      invariant 0 <= i <= slots.size
      invariant done <= l.kids[a].Keys
      invariant forall s :: s in l.kids[a] ==> (s in done <==> s.index < i)
      invariant config.live == old(config.live) - Below(l, a, done)
    {
      assert Idx(i) in l.kids[a] <==> i in Filled(slots.Slots());
      if slots.entries[i].Some? {
        DestroyKid(config, slots.entries[i].value, l, a, Idx(i), done, old(config.live), m);
        done := done + {Idx(i)};
      }
      i := i + 1;
    }
    assert done == l.kids[a].Keys;
  }
}
