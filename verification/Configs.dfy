/**
 * A configuration on the heap: the root node and a ghost ledger of who owns what. The ledger maps
 * every address to its node and every node to its one address, and records which nodes have been
 * allocated and not yet freed.
 */
module Configs {

  import opened Basics
  import opened ConfigTree
  import opened Nodes

  /** The children of the node at each address. */
  type KidMap = map<Addr, map<Seg, Node>>

  /** The ledger agrees with the links between the nodes. */
  ghost predicate Links(at: map<Addr, Node>, kids: KidMap) {
    && kids.Keys == at.Keys
    && (forall a: Addr, s: Seg :: a + [s] in at ==> a in at && s in kids[a] && at[a + [s]] == kids[a][s])
    && (forall a: Addr, s: Seg :: a in at && s in kids[a] ==> a + [s] in at)
  }

  /** Linking a new childless node below the node at a. */
  lemma LinksExtend(at: map<Addr, Node>, kids: KidMap, a: Addr, s: Seg, node: Node)
    requires Links(at, kids)
    requires a in at && s !in kids[a]
    ensures a + [s] !in at
    ensures Links(at[a + [s] := node], kids[a := kids[a][s := node]][a + [s] := map[]])
  {
    var c := a + [s];
    var kids' := kids[a := kids[a][s := node]][c := map[]];
    assert |c| != |a|;
    assert kids'.Keys == at[c := node].Keys;
    forall b: Addr, u: Seg | b + [u] in at[c := node]
      ensures b in at[c := node] && u in kids'[b] && at[c := node][b + [u]] == kids'[b][u]
    {
      if b + [u] == c {
        AppendInjective(a, s, b, u);
      } else if b == a {
        assert u != s;
      }
    }
    forall b: Addr, u: Seg | b in at[c := node] && u in kids'[b]
      ensures b + [u] in at[c := node]
    {
      if !(b == a && u == s) {
        assert u in kids[b];
      }
    }
  }

  /**
   * Who owns what: the abstract tree, the node at each address, its children, and the address that
   * each heap object belongs to.
   */
  datatype Ledger = Ledger(tree: Tree, at: map<Addr, Node>, kids: KidMap, owner: map<object, Addr>)

  /** The node at an address is valid, and it and the objects it is made of belong to that address. */
  ghost predicate Holds(l: Ledger, a: Addr)
    requires a in l.at && a in l.tree && a in l.kids
    reads l.owner.Keys
  {
    var node := l.at[a];
    && node in l.owner
    && node in node.footprint
    && (forall o :: o in node.footprint ==> o in l.owner && l.owner[o] == a)
    && node.Valid()
    && l.tree[a] == node.Shape()
    && l.kids[a] == node.kids
  }

  ghost predicate Owned(l: Ledger)
    reads l.owner.Keys
  {
    && (forall a :: a in l.at ==> a in l.tree && a in l.kids && Holds(l, a))
    && (forall a :: a in l.tree ==> a in l.at)
  }

  /** Every node is owned and linked, and there is a root. */
  ghost predicate Linked(l: Ledger)
    reads l.owner.Keys
  {
    Owned(l) && [] in l.at && Links(l.at, l.kids)
  }

  /** The allocated nodes are exactly the reachable ones. */
  ghost predicate NoLeak(l: Ledger, live: set<Node>) {
    && (forall a :: a in l.at ==> l.at[a] in live)
    && (forall n :: n in live ==> n in l.owner && l.owner[n] in l.at && l.at[l.owner[n]] == n)
  }

  /** The ledger after the node at a has changed its children and its objects. */
  ghost function Relinked(l: Ledger, a: Addr, kids: map<Seg, Node>, footprint: set<object>): Ledger {
    l.(owner := l.owner + (map o | o in footprint :: a), kids := l.kids[a := kids])
  }

  /** Everything but the node at a is as the ledger says. */
  ghost predicate OthersHold(l: Ledger, a: Addr)
    reads l.owner.Keys
  {
    && a in l.at && a in l.tree && a in l.kids
    && (forall b :: b in l.at && b != a ==> b in l.tree && b in l.kids && Holds(l, b))
    && (forall b :: b in l.tree ==> b in l.at)
  }

  lemma RelinkedOwned(l: Ledger, a: Addr)
    requires OthersHold(l, a)
    requires l.at[a] in l.at[a].footprint && l.at[a].Valid() && l.tree[a] == l.at[a].Shape()
    requires forall o :: o in l.at[a].footprint && o in l.owner ==> l.owner[o] == a
    ensures Owned(Relinked(l, a, l.at[a].kids, l.at[a].footprint))
  {
    hide Node.Valid;
    var l' := Relinked(l, a, l.at[a].kids, l.at[a].footprint);
    forall b | b in l'.at
      ensures b in l'.tree && b in l'.kids && Holds(l', b)
    {
      if b != a {
        assert Holds(l, b);
      }
    }
  }

  /** The ledger with a new childless node at c. */
  ghost function Registered(l: Ledger, c: Addr, node: Node): Ledger
    reads node
  {
    Ledger(l.tree[c := node.Shape()], l.at[c := node], l.kids[c := node.kids],
           l.owner + (map o | o in node.footprint :: c))
  }

  lemma RegisteredOwned(l: Ledger, c: Addr, node: Node)
    requires Owned(l) && c !in l.at
    requires node.Valid() && node in node.footprint && node.footprint !! l.owner.Keys
    ensures Owned(Registered(l, c, node))
  {
    hide Node.Valid;
    var l' := Registered(l, c, node);
    forall b | b in l'.at
      ensures b in l'.tree && b in l'.kids && Holds(l', b)
    {
      if b != c {
        assert Holds(l, b);
      }
    }
  }

  lemma ReplacedOwned(l: Ledger, c: Addr)
    requires OthersHold(l, c)
    requires Holds(l.(tree := l.tree[c := l.at[c].Shape()]), c)
    ensures Owned(l.(tree := l.tree[c := l.at[c].Shape()]))
  {
    hide Node.Valid;
    var l' := l.(tree := l.tree[c := l.at[c].Shape()]);
    forall b | b in l'.at
      ensures b in l'.tree && b in l'.kids && Holds(l', b)
    {
      if b != c {
        assert Holds(l, b);
      }
    }
  }

  lemma OwnsItself(l: Ledger, c: Addr)
    requires Owned(l) && c in l.at
    ensures c in l.tree && c in l.kids && Holds(l, c)
    ensures l.at[c] in l.owner && l.at[c].footprint <= l.owner.Keys && l.at[c] in l.at[c].footprint
    ensures l.at[c].Valid() && l.tree[c] == l.at[c].Shape() && l.kids[c] == l.at[c].kids
  {
  }

  lemma NotAKid(l: Ledger, a: Addr, s: Seg)
    requires Linked(l) && a in l.at && a + [s] !in l.at
    ensures s !in l.at[a].kids
  {
    assert Holds(l, a);
  }

  /** The replacement in create-and-insert, on a node of the ledger. */
  method ReplaceValue(node: Node, v: Scalar, ghost l: Ledger, ghost c: Addr)
    requires Owned(l) && c in l.at && l.at[c] == node
    requires TypeOf(node.Shape()) == TypeOf(Leaf(v))
    modifies node
    ensures Owned(l.(tree := l.tree[c := Leaf(v)]))
  {
    assert Holds(l, c);
    node.Replace(v);
    forall b | b in l.at && b != c
      ensures Holds(l, b)
    {
      hide Node.Valid;
      assert old(Holds(l, b));
      assert unchanged(l.at[b]) && unchanged(l.at[b].footprint);
    }
    ReplacedOwned(l, c);
  }

  /** A child that is not there yet is inserted by name or by index. */
  method InsertChild(parent: Node, s: Seg, node: Node) returns (ok: bool)
    requires parent.Valid() && parent in parent.footprint && s !in parent.kids
    requires (parent.value.DictValue? && s.Key?) || (parent.value.ArrayValue? && s.Idx? && s.index + 1 < 0x1_0000_0000)
    modifies parent.footprint
    ensures parent.Valid() && parent.Shape() == old(parent.Shape()) && fresh(parent.footprint - old(parent.footprint))
    ensures parent in parent.footprint
    ensures ok <==> s.Key? || s.index < MAX_SIZE
    ensures parent.kids == if ok then old(parent.kids)[s := node] else old(parent.kids)
  {
    match s {
      case Key(name) => ok := parent.DictInsert(name, node);
      case Idx(index) => ok := parent.ArrayInsert(index, node);
    }
  }

  /** The insertion at the end of create-and-insert: the parent takes the child. */
  method TakeChild(parent: Node, s: Seg, node: Node, ghost l: Ledger, ghost a: Addr) returns (ok: bool)
    requires Owned(l) && a in l.at && l.at[a] == parent
    requires (parent.value.DictValue? && s.Key?) || (parent.value.ArrayValue? && s.Idx? && s.index + 1 < 0x1_0000_0000)
    requires s !in parent.kids
    modifies parent.footprint
    ensures parent.Valid() && parent.Shape() == old(parent.Shape()) && fresh(parent.footprint - old(parent.footprint))
    ensures parent in parent.footprint
    ensures ok <==> s.Key? || s.index < MAX_SIZE
    ensures parent.kids == if ok then old(parent.kids)[s := node] else old(parent.kids)
    ensures OthersHold(l, a)
    ensures forall o :: o in parent.footprint && o in l.owner ==> l.owner[o] == a
  {
    assert Holds(l, a);
    ok := InsertChild(parent, s, node);
    forall b | b in l.at && b != a
      ensures Holds(l, b)
    {
      hide Node.Valid;
      assert old(Holds(l, b));
      assert unchanged(l.at[b]) && unchanged(l.at[b].footprint);
    }
  }

  /** The ledger after the parent at a has been offered the node as child s. */
  ghost function Adopted(l: Ledger, a: Addr, s: Seg, node: Node, ok: bool): Ledger
    requires a in l.at
    reads l.at[a], node
  {
    var l' := Relinked(l, a, l.at[a].kids, l.at[a].footprint);
    if ok then Registered(l', a + [s], node) else l'
  }

  lemma AdoptedLinked(l: Ledger, a: Addr, s: Seg, node: Node, ok: bool)
    requires OthersHold(l, a) && Links(l.at, l.kids) && [] in l.at
    requires l.at[a] in l.at[a].footprint && l.at[a].Valid() && l.tree[a] == l.at[a].Shape()
    requires forall o :: o in l.at[a].footprint && o in l.owner ==> l.owner[o] == a
    requires s !in l.kids[a]
    requires l.at[a].kids == if ok then l.kids[a][s := node] else l.kids[a]
    requires node.Valid() && node in node.footprint && node.kids == map[]
    requires node.footprint !! l.owner.Keys + l.at[a].footprint
    ensures Linked(Adopted(l, a, s, node, ok))
    ensures var l' := Adopted(l, a, s, node, ok);
      forall o :: o in l.owner ==> o in l'.owner && l'.owner[o] == l.owner[o]
  {
    hide Owned, Holds, Node.Valid, Links;
    RelinkedOwned(l, a);
    LinksExtend(l.at, l.kids, a, s, node);
    if ok {
      RegisteredOwned(Relinked(l, a, l.at[a].kids, l.at[a].footprint), a + [s], node);
    } else {
      SameKids(l, a);
    }
  }

  lemma AdoptedFacts(l: Ledger, a: Addr, s: Seg, node: Node, ok: bool)
    requires a in l.at && node in node.footprint
    ensures var l' := Adopted(l, a, s, node, ok);
      && l'.owner.Keys <= l.owner.Keys + l.at[a].footprint + node.footprint
      && (!ok ==> l'.tree == l.tree && l'.at == l.at)
      && (ok ==> node in l'.owner && l'.owner[node] == a + [s])
      && (ok ==> l'.tree == l.tree[a + [s] := node.Shape()] && l'.at == l.at[a + [s] := node])
  {}

  /** A new node, offered to the parent, and the ledger that tells of it when it is taken. */
  method Adopt(config: Config, parent: Node, s: Seg, e: Entry, ghost l: Ledger, ghost a: Addr)
    returns (ok: bool, node: Node, ghost l': Ledger)
    requires Linked(l) && a in l.at && l.at[a] == parent
    requires (parent.value.DictValue? && s.Key?) || (parent.value.ArrayValue? && s.Idx? && s.index + 1 < 0x1_0000_0000)
    requires a + [s] !in l.at && config !in l.owner
    modifies l.owner.Keys, config`live
    ensures Linked(l')
    ensures config.live == old(config.live) + {node} && config !in l'.owner && config !in node.footprint
    ensures forall o :: o in l.owner ==> o in l'.owner && l'.owner[o] == l.owner[o]
    ensures fresh(l'.owner.Keys - l.owner.Keys)
    ensures fresh(node) && fresh(node.footprint)
    ensures node.Valid() && node in node.footprint && node.kids == map[] && node.Shape() == e
    ensures ok <==> s.Key? || s.index < MAX_SIZE
    ensures !ok ==> l'.tree == l.tree && l'.at == l.at
    ensures ok ==> node in l'.owner && l'.owner[node] == a + [s]
    ensures ok ==> l'.tree == l.tree[a + [s] := e] && l'.at == l.at[a + [s] := node]
  {
    hide Owned, Holds, Node.Valid, Links, Adopted;
    OwnsItself(l, a);
    NotAKid(l, a, s);
    node := config.Allocate(e);
    ok := TakeChild(parent, s, node, l, a);
    AdoptedLinked(l, a, s, node, ok);
    AdoptedFacts(l, a, s, node, ok);
    l' := Adopted(l, a, s, node, ok);
  }

  lemma SameKids(l: Ledger, a: Addr)
    requires Links(l.at, l.kids) && a in l.at
    ensures a in l.kids && l.kids[a := l.kids[a]] == l.kids
  {}

  lemma NoLeakExtends(l: Ledger, live: set<Node>, l': Ledger, c: Addr, node: Node)
    requires NoLeak(l, live) && c !in l.at && node !in l.owner
    requires forall o :: o in l.owner ==> o in l'.owner && l'.owner[o] == l.owner[o]
    requires l'.at == l.at[c := node] && node in l'.owner && l'.owner[node] == c
    ensures NoLeak(l', live + {node})
  {}

  /** The ledger of a node without children. */
  ghost function Singleton(node: Node): Ledger
    reads node
  {
    Ledger(map[[] := node.Shape()], map[[] := node], map[[] := node.kids], map o | o in node.footprint :: [])
  }

  lemma SingletonLinked(node: Node)
    requires node.Valid() && node.kids == map[] && node in node.footprint
    ensures Linked(Singleton(node)) && NoLeak(Singleton(node), {node})
  {
    hide Node.Valid;
    assert forall a: Addr, s: Seg :: |a + [s]| > 0;
  }

  /** No node has two addresses, so none has two parents, and the root has none. */
  lemma OneParent(l: Ledger, a: Addr, s: Seg, b: Addr, u: Seg)
    requires Linked(l) && a in l.at && b in l.at
    requires s in l.at[a].kids && u in l.at[b].kids && l.at[a].kids[s] == l.at[b].kids[u]
    ensures a == b && s == u
    ensures l.at[a].kids[s] != l.at[[]]
  {
    hide Node.Valid;
    assert Holds(l, a) && Holds(l, b);
    assert Holds(l, a + [s]) && Holds(l, b + [u]) && Holds(l, []);
    assert a + [s] == b + [u];
    AppendInjective(a, s, b, u);
  }

  class Config {
    var root: Node
    ghost var ledger: Ledger

    /** The nodes that are allocated and not yet freed. */
    ghost var live: set<Node>

    ghost predicate Valid()
      reads this, ledger.owner.Keys
    {
      this !in ledger.owner && Linked(ledger) && ledger.at[[]] == root && NoLeak(ledger, live)
    }

    /** A root node made by `sconf_node_create`, such as SCONF_ROOT makes a dict. */
    constructor (request: Entry)
      ensures Valid() && fresh(ledger.owner.Keys)
      ensures ledger.tree == map[[] := request]
    {
      hide Linked, Owned, Holds, Node.Valid;
      var node := Node.Create(Some(request));
      SingletonLinked(node);
      root := node;
      ledger := Singleton(node);
      live := {node};
      new;
    }

    /** `sconf_node_create`; every node that is made for the tree is live until it is destroyed. */
    method Allocate(e: Entry) returns (node: Node)
      modifies this`live
      ensures live == old(live) + {node}
      ensures node.Valid() && node in node.footprint && fresh(node.footprint)
      ensures node.Shape() == e && node.kids == map[]
    {
      var created := Node.Create(Some(e));
      node := created;
      live := live + {node};
    }

    /** The replacing half of create-and-insert. */
    method ReplaceAt(node: Node, v: Scalar, ghost c: Addr)
      requires Valid() && c in ledger.at && ledger.at[c] == node
      requires TypeOf(node.Shape()) == TypeOf(Leaf(v))
      modifies this`ledger, node
      ensures Valid() && root == old(root)
      ensures ledger == old(ledger).(tree := old(ledger).tree[c := Leaf(v)])
    {
      hide Owned, Holds, Node.Valid, Links;
      OwnsItself(ledger, c);
      ReplaceValue(node, v, ledger, c);
      ledger := ledger.(tree := ledger.tree[c := Leaf(v)]);
    }
  }
}
