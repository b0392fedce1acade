/** `sconf_node_create_and_insert`, the one primitive through which all writers change the tree. */
module Insertion {

  import opened Basics
  import opened Convert
  import opened ConfigTree
  import opened Nodes
  import opened Configs
  import opened Teardown

  /** Every node stays where it is. */
  ghost predicate Keeps(at: map<Addr, Node>, at': map<Addr, Node>) {
    forall a :: a in at ==> a in at' && at'[a] == at[a]
  }

  lemma KeepsTransitive(at: map<Addr, Node>, at': map<Addr, Node>, at'': map<Addr, Node>)
    requires Keeps(at, at') && Keeps(at', at'')
    ensures Keeps(at, at'')
  {}

  lemma KeepsAll(at: map<Addr, Node>)
    ensures Keeps(at, at)
  {}

  /** The C code computes the index plus one in 32 bits; the largest index must not come up. */
  predicate SafeName(name: string) {
    Bracketed(name) ==> ArrayIndex(name) != Some(0xffff_ffff)
  }

  /** The creating half. A node that finds no room is destroyed again. */
  method InsertNew(config: Config, parent: Node, s: Seg, e: Entry, ghost a: Addr) returns (node: Node?)
    requires config.Valid() && a in config.ledger.at && config.ledger.at[a] == parent
    requires (parent.value.DictValue? && s.Key?) || (parent.value.ArrayValue? && s.Idx? && s.index + 1 < 0x1_0000_0000)
    requires a + [s] !in config.ledger.at
    modifies config`ledger, config`live, config.ledger.owner.Keys
    ensures config.Valid() && config.root == old(config.root)
    ensures fresh(config.ledger.owner.Keys - old(config.ledger).owner.Keys)
    ensures node == null <==> s.Idx? && s.index >= MAX_SIZE
    ensures node == null ==>
      config.ledger.tree == old(config.ledger).tree && config.ledger.at == old(config.ledger).at
    ensures node != null ==>
      && config.ledger.tree == old(config.ledger).tree[a + [s] := e]
      && config.ledger.at == old(config.ledger).at[a + [s] := node]
  {
    hide Linked, Owned, Holds, Node.Valid;
    ghost var l := config.ledger;
    ghost var live := config.live;
    var ok, child, l' := Adopt(config, parent, s, e, l, a);
    if ok {
      NoLeakExtends(l, live, l', a + [s], child);
      config.ledger := l';
      return child;
    }
    NoLeakSame(l, live, l', child);
    config.ledger := l';
    DestroySingle(config, child);
    return null;
  }

  lemma NoLeakSame(l: Ledger, live: set<Node>, l': Ledger, child: Node)
    requires NoLeak(l, live) && child !in l.owner && l'.at == l.at
    requires forall o :: o in l.owner ==> o in l'.owner && l'.owner[o] == l.owner[o]
    ensures NoLeak(l', live) && live + {child} - {child} == live
  {}

  /** Destroying a node that has not been linked to anything. */
  method DestroySingle(config: Config, node: Node)
    requires node.Valid() && node in node.footprint && node.kids == map[] && config !in node.footprint
    requires node in config.live
    modifies config`live
    ensures config.live == old(config.live) - {node}
  {
    hide Linked, Owned, Holds, Node.Valid;
    SingletonLinked(node);
    assert Subtree(Singleton(node), []) == {node};
    Destroy(config, node, Singleton(node), [], 0);
  }

  /** Looking up the child that a name or an index denotes, as the abstract tree sees it. */
  method SearchChild(parent: Node, name: Option<string>, index: uint32, ghost l: Ledger, ghost a: Addr)
    returns (s: Option<Seg>, found: Option<Node>)
    requires Linked(l) && a in l.at && l.at[a] == parent
    ensures a in l.tree && s == Resolve(l.tree[a], name, index)
    ensures s.Some? ==> (a + [s.value] in l.at <==> found.Some?)
    ensures s.Some? && found.Some? ==> l.at[a + [s.value]] == found.value
    ensures s.Some? ==> (parent.value.DictValue? && s.value.Key?) || (parent.value.ArrayValue? && s.value.Idx?)
    ensures s.Some? && s.value.Idx? ==> (
      s.value.index == index || (name.Some? && Bracketed(name.value) && ArrayIndex(name.value) == Some(s.value.index)))
  {
    hide Linked, Owned, Holds;
    OwnsItself'(l, a);
    var i := index;
    if name.Some? && Bracketed(name.value) && parent.value.ArrayValue? {
      var parsed := ArrayIndex(name.value);
      if parsed.None? {
        return None, None;
      }
      i := parsed.value;
    }
    var ok;
    if parent.value.DictValue? {
      ok, found := parent.DictSearch(name);
      s := if ok then Some(Key(name.value)) else None;
    } else if parent.value.ArrayValue? {
      ok, found := parent.ArraySearch(i);
      s := Some(Idx(i));
    } else {
      return None, None;
    }
    if s.Some? {
      KidFacts(l, a, s.value);
      KidBack(l, a, s.value);
    }
  }

  lemma OwnsItself'(l: Ledger, a: Addr)
    requires Linked(l) && a in l.at
    ensures a in l.tree && l.at[a].Valid() && l.tree[a] == l.at[a].Shape()
    ensures l.at[a] in l.owner && l.at[a] in l.at[a].footprint
  {
    assert Holds(l, a);
  }

  lemma KidFits(node: Node, s: Seg)
    requires node.Valid() && s in node.kids
    ensures Fits(node.Shape(), s)
  {}

  lemma TreeKeys(l: Ledger, a: Addr)
    requires Owned(l)
    ensures a in l.tree <==> a in l.at
    ensures a in l.at ==> a in l.kids && l.at[a].Valid() && l.kids[a] == l.at[a].kids && l.tree[a] == l.at[a].Shape()
  {
    hide Node.Valid;
    assert a in l.at ==> Holds(l, a);
  }

  /** The abstract tree of a valid configuration is well formed. */
  lemma TreeWellFormed(config: Config)
    requires config.Valid()
    ensures WellFormed(config.ledger.tree)
    ensures config.ledger.tree[[]] == config.root.Shape()
  {
    hide NoLeak, Owned, Node.Valid, Fits;
    var l := config.ledger;
    TreeKeys(l, []);
    forall a: Addr, s: Seg | a + [s] in l.tree
      ensures a in l.tree && Fits(l.tree[a], s)
    {
      TreeKeys(l, a + [s]);
      TreeKeys(l, a);
      KidFits(l.at[a], s);
    }
  }

  lemma KidBack(l: Ledger, a: Addr, s: Seg)
    requires Linked(l) && a in l.at
    ensures a in l.kids && (a + [s] in l.at ==> s in l.kids[a])
  {}

  /** What the abstract put is, in terms of the nodes. */
  lemma PutInNodes(l: Ledger, a: Addr, name: Option<string>, index: nat, request: Option<Entry>)
    requires Linked(l) && a in l.at
    ensures a in l.tree
    ensures var s := Resolve(l.tree[a], name, index);
      var put := Put(l.tree, a, name, index, request);
      && (s.None? || request.None? ==> put == Refused)
      && (s.Some? && request.Some? ==>
           var c := a + [s.value];
           && (c in l.at && TypeOf(l.at[c].Shape()) != TypeOf(request.value) ==> put == Refused)
           && (c in l.at && TypeOf(l.at[c].Shape()) == TypeOf(request.value) ==>
                 && put == Stored(l.tree[c := request.value], c)
                 && (!request.value.Leaf? ==> l.tree[c := request.value] == l.tree))
           && (c !in l.at && s.value.Idx? && s.value.index >= MAX_SIZE ==> put == Refused)
           && (c !in l.at && !(s.value.Idx? && s.value.index >= MAX_SIZE) ==>
                 put == Stored(l.tree[c := request.value], c)))
  {
    hide Node.Valid, Links;
    assert Holds(l, a);
    var s := Resolve(l.tree[a], name, index);
    if s.Some? {
      var c := a + [s.value];
      assert c[|c| - 1] == s.value;
      if c in l.at {
        assert Holds(l, c);
      }
    }
  }

  /** Create-or-replace at a child of the parent, which is the node at address a. */
  method CreateAndInsert(config: Config, name: Option<string>, request: Option<Entry>, parent: Node,
      index: uint32, ghost a: Addr)
    returns (node: Node?)
    requires config.Valid() && a in config.ledger.at && config.ledger.at[a] == parent
    requires index + 1 < 0x1_0000_0000 && (name.Some? ==> SafeName(name.value))
    modifies config`ledger, config`live, config.ledger.owner.Keys
    ensures config.Valid() && config.root == old(config.root)
    ensures fresh(config.ledger.owner.Keys - old(config.ledger).owner.Keys)
    ensures Keeps(old(config.ledger).at, config.ledger.at)
    ensures a in old(config.ledger).tree
    ensures match Put(old(config.ledger).tree, a, name, index, request)
      case Refused => node == null && config.ledger.tree == old(config.ledger).tree
      case Stored(t, c) => config.ledger.tree == t && c in config.ledger.at && node == config.ledger.at[c]
  {
    hide Linked, Owned, Holds, Node.Valid, Put;
    PutInNodes(config.ledger, a, name, index, request);
    var s, found := SearchChild(parent, name, index, config.ledger, a);
    if s.None? {
      return null;
    }
    ghost var c := a + [s.value];
    if found.Some? {
      node := found.value;
      OwnsItself'(config.ledger, c);
      var differs := request.None? || !node.HasType(request.value);
      if differs {
        return null;
      }
      if request.value.Leaf? {
        config.ReplaceAt(node, request.value.value, c);
      }
    } else if request.None? {
      return null;
    } else {
      node := InsertNew(config, parent, s.value, request.value, a);
    }
  }
}
