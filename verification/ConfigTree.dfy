/**
 * The abstract configuration: a map from addresses to entries. An address is the list of keys and
 * indices on the way from the root. All writers go through `Put`, the counterpart of
 * `sconf_node_create_and_insert`.
 */
module ConfigTree {

  import opened Basics
  import opened Convert

  datatype Seg = Key(name: string) | Idx(index: nat)

  type Addr = seq<Seg>

  datatype Scalar = Str(text: string) | Int(integer: int64) | Bool(flag: bool) | Float(bits: Double)

  datatype Entry = Dict | Array | Leaf(value: Scalar)

  type Tree = map<Addr, Entry>

  /** The tag of a node. It never changes while the node lives. */
  datatype NodeType = DictType | ArrayType | StrType | IntType | BoolType | FloatType

  function TypeOf(e: Entry): NodeType {
    match e
    case Dict => DictType
    case Array => ArrayType
    case Leaf(Str(_)) => StrType
    case Leaf(Int(_)) => IntType
    case Leaf(Bool(_)) => BoolType
    case Leaf(Float(_)) => FloatType
  }

  /** Dicts have named children, arrays have children at indices below the maximum size. */
  predicate Fits(parent: Entry, s: Seg) {
    match parent
    case Dict => s.Key?
    case Array => s.Idx? && s.index < MAX_SIZE
    case Leaf(_) => false
  }

  ghost predicate WellFormed(t: Tree) {
    && [] in t
    && forall a: Addr, s: Seg :: a + [s] in t ==> a in t && Fits(t[a], s)
  }

  /** What a later tree keeps of an earlier one: every entry, with its type. */
  ghost predicate Extends(t: Tree, t': Tree) {
    forall a :: a in t ==> a in t' && TypeOf(t'[a]) == TypeOf(t[a])
  }

  /** No entry lies more than MAX_DEPTH - 1 edges below the root. */
  ghost predicate Bounded(t: Tree) {
    forall a :: a in t ==> |a| <= MAX_DEPTH - 1
  }

  /** The flat map of the scalars. */
  function Scalars(t: Tree): map<Addr, Scalar> {
    map a | a in t && t[a].Leaf? :: t[a].value
  }

  // ----- create-or-replace at one child of a node

  /** Which child of a node a name and a fall-back index denote. */
  function Resolve(e: Entry, name: Option<string>, index: nat): Option<Seg> {
    match e
    case Dict => if name.Some? then Some(Key(name.value)) else None
    case Array =>
      if name.Some? && Bracketed(name.value) then
        match ArrayIndex(name.value)
        case Some(i) => Some(Idx(i))
        case None => None
      else Some(Idx(index))
    case Leaf(_) => None
  }

  /** Whether an entry of this type may be written at c: same type as a present one, or a legal new slot. */
  predicate Admits(t: Tree, c: Addr, e: Entry)
    requires c != []
  {
    if c in t then TypeOf(t[c]) == TypeOf(e)
    else c[|c| - 1].Idx? ==> c[|c| - 1].index < MAX_SIZE
  }

  datatype PutResult = Refused | Stored(tree: Tree, at: Addr)

  /**
   * `sconf_node_create_and_insert`. A request is an entry to create or to replace with; None is a
   * type for which no node can be created.
   */
  function Put(t: Tree, a: Addr, name: Option<string>, index: nat, request: Option<Entry>): PutResult
    requires a in t
  {
    match Resolve(t[a], name, index)
    case None => Refused
    case Some(s) =>
      if request.Some? && Admits(t, a + [s], request.value)
      then Stored(t[a + [s] := request.value], a + [s])
      else Refused
  }

  // ----- what a put keeps

  /** A put writes one child of the node at a. */
  lemma PutAddress(t: Tree, a: Addr, name: Option<string>, index: nat, request: Option<Entry>)
    requires a in t
    ensures var r := Put(t, a, name, index, request);
      r.Stored? ==>
        && |r.at| == |a| + 1 && r.at[..|a|] == a
        && request.Some? && r.tree == t[r.at := request.value]
  {}

  lemma AppendInjective(a: Addr, s: Seg, b: Addr, u: Seg)
    requires a + [s] == b + [u]
    ensures a == b && s == u
  {
    assert (a + [s])[..|a|] == a && (b + [u])[..|b|] == b;
    assert (a + [s])[|a|] == s && (b + [u])[|b|] == u;
  }

  /** Writing an admitted entry below a container keeps the tree well formed and only extends it. */
  lemma WriteKeeps(t: Tree, a: Addr, s: Seg, e: Entry)
    requires WellFormed(t) && a in t
    requires t[a].Dict? ==> s.Key?
    requires t[a].Array? ==> s.Idx?
    requires !t[a].Leaf?
    requires Admits(t, a + [s], e)
    ensures WellFormed(t[a + [s] := e]) && Extends(t, t[a + [s] := e])
  {
    var c, t' := a + [s], t[a + [s] := e];
    assert c[|c| - 1] == s;
    forall b: Addr, u: Seg | b + [u] in t'
      ensures b in t' && Fits(t'[b], u)
    {
      if b + [u] == c {
        AppendInjective(a, s, b, u);
      } else if b == c {
        assert c in t;
      }
    }
  }

  lemma PutKeeps(t: Tree, a: Addr, name: Option<string>, index: nat, request: Option<Entry>)
    requires WellFormed(t) && a in t
    ensures var r := Put(t, a, name, index, request);
      r.Stored? ==> WellFormed(r.tree) && Extends(t, r.tree)
  {
    var r := Put(t, a, name, index, request);
    if r.Stored? {
      WriteKeeps(t, a, Resolve(t[a], name, index).value, request.value);
    }
  }

  /** A present address has all its prefixes present. */
  lemma {:induction false} PrefixClosed(t: Tree, c: Addr, j: nat)
    requires WellFormed(t) && c in t && j <= |c|
    ensures c[..j] in t
    decreases |c| - j
  {
    if j == |c| {
      assert c[..j] == c;
    } else {
      PrefixClosed(t, c, j + 1);
      assert c[..j + 1] == c[..j] + [c[j]];
    }
  }

  lemma ExtendsTransitive(t: Tree, u: Tree, v: Tree)
    requires Extends(t, u) && Extends(u, v)
    ensures Extends(t, v)
  {}
}
