/**
 * Config nodes on the heap: creation, the dict and array primitives of src/sconf.c, and the
 * create-or-replace primitive that every writer uses.
 */
module Nodes {

  import opened Basics
  import opened ConfigTree
  import opened SparseArrays

  /** The tagged union inside `struct SConfNode`. A dict is a map from names to nodes. */
  datatype Value =
    | DictValue(children: map<string, Node>)
    | ArrayValue(slots: SconfArray<Node>)
    | LeafValue(scalar: Scalar)

  class Node {
    var value: Value

    /** The children, by segment, and the objects that make up this node. */
    ghost var kids: map<Seg, Node>
    ghost var footprint: set<object>

    ghost predicate Valid()
      reads this, footprint
    {
      && this in footprint
      && match value
         case DictValue(children) =>
           && footprint == {this}
           && (forall s :: s in kids <==> s.Key? && s.name in children)
           && (forall s :: s in kids ==> kids[s] == children[s.name])
         case ArrayValue(slots) =>
           && slots in footprint && slots.entries in footprint
           && footprint == {this, slots, slots.entries}
           && slots.Valid()
           && (forall s :: s in kids <==> s.Idx? && s.index in Filled(slots.Slots()))
           && (forall s :: s in kids ==> kids[s] == Filled(slots.Slots())[s.index])
         case LeafValue(_) => footprint == {this} && kids == map[]
    }

    /** The node as an entry of the abstract tree. */
    ghost function Shape(): Entry
      reads this
    {
      match value
      case DictValue(_) => Dict
      case ArrayValue(_) => Array
      case LeafValue(v) => Leaf(v)
    }

    /** The comparison of a node's type tag. */
    predicate HasType(e: Entry)
      reads this
      ensures HasType(e) <==> TypeOf(Shape()) == TypeOf(e)
    {
      match value
      case DictValue(_) => e.Dict?
      case ArrayValue(_) => e.Array?
      case LeafValue(v) => TypeOf(e) == TypeOf(Leaf(v))
    }

    constructor Make(value: Value)
      requires value.ArrayValue? ==> value.slots.Valid() && Filled(value.slots.Slots()) == map[]
      requires value.DictValue? ==> value.children == map[]
      ensures Valid() && this.value == value && kids == map[]
      ensures footprint == if value.ArrayValue? then {this, value.slots, value.slots.entries} else {this}
    {
      this.value := value;
      kids := map[];
      footprint := if value.ArrayValue? then {this, value.slots, value.slots.entries} else {this};
    }

    /** `sconf_node_create`: a new node without children, or NULL for a type that is no node type. */
    static method Create(request: Option<Entry>) returns (node: Node?)
      ensures node == null <==> request.None?
      ensures node != null ==> node.Valid() && node in node.footprint && fresh(node.footprint)
      ensures node != null ==> node.Shape() == request.value && node.kids == map[]
    {
      if request.None? {
        return null;
      }
      if request.value.Dict? {
        node := new Node.Make(DictValue(map[]));
      } else if request.value.Array? {
        var slots := new SconfArray<Node>.Allocate(1);
        node := new Node.Make(ArrayValue(slots));
      } else {
        node := new Node.Make(LeafValue(request.value.value));
      }
    }

    /**
     * `sconf_node_dict_insert`. On a name that is already present the entry is replaced, and the
     * call still reports failure.
     */
    method DictInsert(name: string, child: Node) returns (ok: bool)
      requires Valid()
      modifies this
      ensures Valid() && footprint == old(footprint) && Shape() == old(Shape())
      ensures ok <==> old(value).DictValue? && Key(name) !in old(kids)
      ensures kids == if old(value).DictValue? then old(kids)[Key(name) := child] else old(kids)
    {
      if !value.DictValue? {
        return false;
      }
      ok := name !in value.children;
      assert Key(name) in kids <==> name in value.children;
      value := DictValue(value.children[name := child]);
      kids := kids[Key(name) := child];
    }

    /** `sconf_node_dict_search`: an error on other nodes; no node for an unknown name. */
    method DictSearch(name: Option<string>) returns (ok: bool, node: Option<Node>)
      requires Valid()
      ensures ok <==> name.Some? && value.DictValue?
      ensures ok ==> node == if Key(name.value) in kids then Some(kids[Key(name.value)]) else None
    {
      if name.None? || !value.DictValue? {
        return false, None;
      }
      assert Key(name.value) in kids <==> name.value in value.children;
      if name.value in value.children {
        return true, Some(value.children[name.value]);
      }
      return true, None;
    }

    /** `sconf_node_array_insert`: an occupied slot or an index above the maximum is refused. */
    method ArrayInsert(index: uint32, child: Node) returns (ok: bool)
      requires Valid()
      requires index + 1 < 0x1_0000_0000
      modifies footprint
      ensures Valid() && fresh(footprint - old(footprint)) && value == old(value)
      ensures ok <==> value.ArrayValue? && index < MAX_SIZE && Idx(index) !in old(kids)
      ensures kids == if ok then old(kids)[Idx(index) := child] else old(kids)
    {
      if !value.ArrayValue? {
        return false;
      }
      assert Idx(index) in kids <==> index in Filled(value.slots.Slots());
      ok := value.slots.Insert(index, child);
      if ok {
        kids := kids[Idx(index) := child];
      }
      footprint := {this, value.slots, value.slots.entries};
    }

    /** `sconf_node_array_search`: an error on other nodes; no node for an empty or missing slot. */
    method ArraySearch(index: uint32) returns (ok: bool, node: Option<Node>)
      requires Valid()
      ensures ok <==> value.ArrayValue?
      ensures ok ==> node == if Idx(index) in kids then Some(kids[Idx(index)]) else None
    {
      if !value.ArrayValue? {
        return false, None;
      }
      assert Idx(index) in kids <==> index in Filled(value.slots.Slots());
      node := value.slots.Search(index);
      ok := true;
    }

    /** `sconf_node_str_init` and its siblings, on a node that already has this type. */
    method Replace(v: Scalar)
      requires Valid()
      requires TypeOf(Shape()) == TypeOf(Leaf(v))
      modifies this`value
      ensures Valid() && Shape() == Leaf(v)
    {
      value := LeafValue(v);
    }
  }
}
