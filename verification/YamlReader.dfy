/** The YAML reader on the heap: parser state with a linked stack of parents, and the event loop. */
module YamlReader {

  import opened Basics
  import opened Convert
  import opened ConfigTree
  import opened Nodes
  import opened Configs
  import opened Insertion
  import opened Yaml
  import opened YamlDocs

  /** `struct SConfYAMLParent`. The address of the parent is kept for the proofs. */
  class YamlParent {
    const parent: Node
    const next: YamlParent?
    ghost const at: Addr
    var currIndex: uint32

    constructor (parent: Node, next: YamlParent?, ghost at: Addr)
      ensures this.parent == parent && this.next == next && this.at == at && currIndex == 0
    {
      this.parent := parent;
      this.next := next;
      this.at := at;
      currIndex := 0;
    }
  }

  /** The k-th entry of a stack, or NULL. */
  ghost function EntryAt(frames: seq<YamlParent>, k: nat): YamlParent? {
    if k < |frames| then frames[k] else null
  }

  /** The entries are linked, and none occurs twice. */
  ghost predicate Chain(frames: seq<YamlParent>) {
    && (forall k :: 0 <= k < |frames| ==> frames[k].next == EntryAt(frames, k + 1))
    && (forall j, k :: 0 <= j < k < |frames| ==> frames[j] != frames[k])
  }

  lemma OnlyOnce(frames: seq<YamlParent>, k: nat)
    requires Chain(frames) && k < |frames|
    ensures forall j :: 0 <= j < |frames| && j != k ==> frames[j] != frames[k]
  {
    forall j | 0 <= j < |frames| && j != k
      ensures frames[j] != frames[k]
    {
      if j < k {
        assert frames[j] != frames[k];
      } else {
        assert frames[k] != frames[j];
      }
    }
  }

  /** `struct SConfYAMLState`. */
  class YamlState {
    var state: Mode
    var depth: int
    var currKey: Option<string>
    var currParent: YamlParent?

    /** The entries of the parent stack, and the frames they stand for; the top comes first. */
    ghost var frames: seq<YamlParent>
    ghost var stack: seq<Frame>

    ghost predicate Valid()
      reads this, frames
    {
      && depth == |frames| == |stack|
      && currParent == EntryAt(frames, 0)
      && Chain(frames)
      && (forall k :: 0 <= k < |frames| ==> stack[k] == Frame(frames[k].at, frames[k].currIndex))
    }

    constructor ()
      ensures Valid() && state == AtStart && currKey == None && stack == [] && frames == []
    {
      state, depth, currKey, currParent := AtStart, 0, None, null;
      frames, stack := [], [];
    }

    /** `sconf_yaml_parent_stack_push`. */
    method Push(parent: Node, ghost a: Addr) returns (ok: bool)
      requires Valid()
      modifies this
      ensures Valid() && state == old(state) && currKey == old(currKey)
      ensures ok <==> old(depth) < MAX_DEPTH - 1
      ensures !ok ==> frames == old(frames) && stack == old(stack)
      ensures ok ==> |frames| > 0 && fresh(frames[0]) && frames[0].at == a && frames[0].parent == parent
      ensures ok ==> frames[1..] == old(frames) && stack == [Frame(a, 0)] + old(stack)
    {
      if depth >= MAX_DEPTH - 1 {
        return false;
      }
      depth := depth + 1;
      var p := new YamlParent(parent, currParent, a);
      currParent := p;
      frames := [p] + frames;
      stack := [Frame(a, 0)] + stack;
      return true;
    }

    /** `sconf_yaml_parent_stack_pop`. */
    method Pop() returns (ok: bool)
      requires Valid()
      modifies this
      ensures Valid() && state == old(state) && currKey == old(currKey)
      ensures ok <==> old(stack) != []
      ensures !ok ==> frames == old(frames) && stack == old(stack)
      ensures ok ==> frames == old(frames)[1..] && stack == old(stack)[1..]
    {
      var p := currParent;
      if p == null {
        return false;
      }
      depth := depth - 1;
      currParent := p.next;
      frames := frames[1..];
      stack := stack[1..];
      return true;
    }

    /** `sconf_yaml_state_destroy`: the stack is popped until it is empty, and the key is dropped. */
    method Destroy()
      requires Valid()
      modifies this
      ensures Valid() && depth == 0 && frames == [] && stack == [] && currKey == None
    {
      while currParent != null
        invariant Valid()
        decreases |frames|
      {
        var ok := Pop();
      }
      currKey := None;
    }

    /** `curr_index++` at the k-th entry of the stack. */
    method CountElement(p: YamlParent, ghost k: nat)
      requires Valid() && k < |frames| && frames[k] == p && p.currIndex + 1 < 0x1_0000_0000
      modifies p, this`stack
      ensures Valid() && frames == old(frames)
      ensures stack == old(stack)[k := old(stack)[k].(index := old(stack)[k].index + 1)]
    {
      hide Chain, EntryAt;
      OnlyOnce(frames, k);
      p.currIndex := p.currIndex + 1;
      stack := stack[k := stack[k].(index := stack[k].index + 1)];
    }
  }

  /** The parents on the stack are the nodes of the tree at their addresses. */
  ghost predicate Attached(l: Ledger, frames: seq<YamlParent>) {
    forall k :: 0 <= k < |frames| ==>
      frames[k].at in l.at && l.at[frames[k].at] == frames[k].parent && frames[k] !in l.owner
  }

  /** Parser state and tree together, as the abstract machine. */
  ghost function MachineOf(config: Config, state: YamlState): Machine
    reads config, state
  {
    Machine(state.state, state.currKey, state.stack, config.ledger.tree)
  }

  ghost predicate Coupled(config: Config, state: YamlState)
    reads config, config.ledger.owner.Keys, state, state.frames
  {
    && config.Valid() && state.Valid()
    && state !in config.ledger.owner
    && Attached(config.ledger, state.frames)
  }

  ghost predicate Ready(config: Config, state: YamlState)
    reads config, config.ledger.owner.Keys, state, state.frames
  {
    Coupled(config, state) && Sound(MachineOf(config, state))
  }

  /** The 32-bit counters and indices that the next step uses stay in range. */
  ghost predicate Roomy(state: YamlState)
    reads state
  {
    && (forall k :: 0 <= k < |state.stack| ==> state.stack[k].index + 2 < 0x1_0000_0000)
    && (state.currKey.Some? ==> SafeName(state.currKey.value))
  }

  lemma AttachedKeeps(l: Ledger, l': Ledger, frames: seq<YamlParent>)
    requires Attached(l, frames) && Keeps(l.at, l'.at)
    requires forall k :: 0 <= k < |frames| ==> frames[k] !in l'.owner
    ensures Attached(l', frames)
  {}

  /** What is known about the top of the stack. */
  lemma TopIsNode(config: Config, state: YamlState)
    requires Ready(config, state) && state.currParent != null
    ensures state.frames != [] && state.stack != [] && state.frames[0] == state.currParent
    ensures var p := state.currParent;
      && state.stack[0] == Frame(p.at, p.currIndex)
      && p.at in config.ledger.at && config.ledger.at[p.at] == p.parent
      && p.at in config.ledger.tree && p.parent.Valid() && config.ledger.tree[p.at] == p.parent.Shape()
      && p !in config.ledger.owner && p.parent in config.ledger.owner
  {
    hide Linked, Sound, NoLeak;
    assert Linked(config.ledger);
    OwnsItself'(config.ledger, state.currParent.at);
  }

  /** Create-or-replace below the parent on top of the stack. */
  method PutAtParent(config: Config, state: YamlState, request: Entry) returns (node: Node?)
    requires Ready(config, state) && Roomy(state) && state.currParent != null
    modifies config`ledger, config`live, config.ledger.owner.Keys
    ensures Coupled(config, state) && config.root == old(config.root)
    ensures fresh(config.ledger.owner.Keys - old(config.ledger).owner.Keys)
    ensures Keeps(old(config.ledger).at, config.ledger.at)
    ensures state.currParent == old(state.currParent) && state.frames == old(state.frames)
    ensures state.stack == old(state.stack)
    ensures state.state == old(state.state) && state.currKey == old(state.currKey) && state.depth == old(state.depth)
    ensures var m := old(MachineOf(config, state));
      m.stack != [] && m.stack[0].at in m.tree &&
      match Put(m.tree, m.stack[0].at, m.key, m.stack[0].index, Some(request))
      case Refused => node == null && config.ledger.tree == m.tree
      case Stored(t, c) => config.ledger.tree == t && c in config.ledger.at && node == config.ledger.at[c]
  {
    hide Linked, Owned, Holds, Node.Valid, NoLeak, Config.Valid, Sound, Put;
    TopIsNode(config, state);
    var p := state.currParent;
    node := CreateAndInsert(config, state.currKey, Some(request), p.parent, p.currIndex, p.at);
    AttachedKeeps(old(config.ledger), config.ledger, state.frames);
  }

  /** What happens at the k-th parent once its child has been written. */
  ghost function AdvanceAt(m: Machine, k: nat): Machine
    requires k < |m.stack| && m.stack[k].at in m.tree
  {
    if m.tree[m.stack[k].at].Array? then m.(stack := m.stack[k := m.stack[k].(index := m.stack[k].index + 1)])
    else m.(key := None)
  }

  lemma AdvanceAtTop(m: Machine)
    requires m.stack != [] && m.stack[0].at in m.tree
    ensures AdvanceAt(m, 0) == Advance(m)
  {
    var p := m.stack[0];
    assert m.stack[0 := p.(index := p.index + 1)] == [p.(index := p.index + 1)] + m.stack[1..];
  }

  /** A parent counts its new element, or drops the key. */
  method MoveOn(config: Config, state: YamlState, p: YamlParent, ghost k: nat)
    requires Coupled(config, state) && k < |state.frames| && state.frames[k] == p
    requires p.currIndex + 1 < 0x1_0000_0000
    requires p.at in config.ledger.tree && config.ledger.tree[p.at] == p.parent.Shape() && !p.parent.Shape().Leaf?
    requires p !in config.ledger.owner && p.parent in config.ledger.owner
    modifies state, p
    ensures Coupled(config, state) && state.frames == old(state.frames)
    ensures var m := old(MachineOf(config, state));
      k < |m.stack| && m.stack[k].at in m.tree && MachineOf(config, state) == AdvanceAt(m, k)
  {
    hide Linked, NoLeak, Chain;
    if p.parent.value.ArrayValue? {
      state.CountElement(p, k);
    } else if p.parent.value.DictValue? {
      state.currKey := None;
    }
  }

  /** The second half of `sconf_yaml_parent_add`: push the new container, then move on at its parent. */
  method Enter(config: Config, state: YamlState, parent: Node, ghost c: Addr) returns (ok: bool)
    requires Coupled(config, state) && state.currParent != null
    requires c in config.ledger.at && config.ledger.at[c] == parent
    requires state.stack != [] && state.stack[0].at in config.ledger.tree && state.stack[0].index + 1 < 0x1_0000_0000
    requires !config.ledger.tree[state.stack[0].at].Leaf?
    modifies state, state.currParent
    ensures config.Valid() && state.Valid() && state !in config.ledger.owner
    ensures forall f :: f in state.frames ==> f in old(state.frames) || fresh(f)
    ensures match Push(Advance(old(MachineOf(config, state))), c)
      case Running(m) => ok && Coupled(config, state) && MachineOf(config, state) == m
      case Failed(_) => !ok
  {
    hide Linked, NoLeak, Chain;
    var p := state.currParent;
    EmptyStack(state);
    TypeOfTop(config, state);
    ok := state.Push(parent, c);
    if ok {
      assert state.frames[1] == p;
      MoveOn(config, state, p, 1);
    }
  }

  lemma TypeOfTop(config: Config, state: YamlState)
    requires Coupled(config, state) && state.currParent != null
    ensures state.frames != [] && state.frames[0] == state.currParent
    ensures state.stack[0] == Frame(state.currParent.at, state.currParent.currIndex)
    ensures state.currParent.at in config.ledger.tree
    ensures config.ledger.tree[state.currParent.at] == state.currParent.parent.Shape()
    ensures state.currParent !in config.ledger.owner && state.currParent.parent in config.ledger.owner
  {
    hide Linked, NoLeak;
    OwnsItself'(config.ledger, state.currParent.at);
  }

  lemma EmptyStack(state: YamlState)
    requires state.Valid()
    ensures state.currParent == null <==> state.stack == []
    ensures state.depth == |state.stack|
  {}

  /** `sconf_yaml_parent_add`. */
  method AddParent(config: Config, state: YamlState, container: Entry) returns (ok: bool)
    requires Ready(config, state) && Roomy(state) && !container.Leaf?
    modifies config`ledger, config`live, config.ledger.owner.Keys, state, state.frames
    ensures config.Valid() && config.root == old(config.root) && state.Valid() && state !in config.ledger.owner
    ensures forall f :: f in state.frames ==> f in old(state.frames) || fresh(f)
    ensures fresh(config.ledger.owner.Keys - old(config.ledger).owner.Keys)
    ensures Keeps(old(config.ledger).at, config.ledger.at)
    ensures OnTree(old(MachineOf(config, state)))
    ensures match ParentAdd(old(MachineOf(config, state)), container)
      case Running(m) => ok && Ready(config, state) && MachineOf(config, state) == m
      case Failed(t) => !ok && config.ledger.tree == t
  {
    hide Linked, Owned, Holds, Node.Valid, NoLeak, Config.Valid, Sound, Put, YamlState.Valid, Attached;
    ghost var m := MachineOf(config, state);
    ParentAddKeeps(m, container);
    EmptyStack(state);
    var p := state.currParent;
    if p == null {
      return false;
    }
    TopIsNode(config, state);
    if p.parent.value.DictValue? && state.currKey.None? {
      return false;
    }
    PutKeepsTop(m, container);
    var parent := PutAtParent(config, state, container);
    if parent == null {
      return false;
    }
    ghost var put := Put(m.tree, m.stack[0].at, m.key, m.stack[0].index, Some(container));
    ok := Enter(config, state, parent, put.at);
  }

  /** A put keeps the parent on top of the stack what it is. */
  lemma PutKeepsTop(m: Machine, request: Entry)
    requires Sound(m) && m.stack != []
    ensures m.stack[0].at in m.tree
    ensures var r := Put(m.tree, m.stack[0].at, m.key, m.stack[0].index, Some(request));
      r.Stored? ==> m.stack[0].at in r.tree && !r.tree[m.stack[0].at].Leaf?
  {
    PutAtTop(m, request);
  }

  /** `sconf_yaml_node_add`. */
  method AddNode(config: Config, state: YamlState, parentType: Entry, text: string, quoted: bool, strtod: Strtod)
    returns (ok: bool)
    requires Ready(config, state) && Roomy(state)
    modifies config`ledger, config`live, config.ledger.owner.Keys, state, state.frames
    ensures config.Valid() && config.root == old(config.root) && state.Valid() && state !in config.ledger.owner
    ensures forall f :: f in state.frames ==> f in old(state.frames) || fresh(f)
    ensures fresh(config.ledger.owner.Keys - old(config.ledger).owner.Keys)
    ensures Keeps(old(config.ledger).at, config.ledger.at)
    ensures OnTree(old(MachineOf(config, state)))
    ensures match NodeAdd(old(MachineOf(config, state)), parentType, text, quoted, strtod)
      case Running(m) => ok && Ready(config, state) && MachineOf(config, state) == m
      case Failed(t) => !ok && config.ledger.tree == t
  {
    hide Linked, Owned, Holds, Node.Valid, NoLeak, Config.Valid, Sound, Put, YamlState.Valid, Attached, Classify;
    ghost var m := MachineOf(config, state);
    NodeAddKeeps(m, parentType, text, quoted, strtod);
    EmptyStack(state);
    var p := state.currParent;
    if p == null {
      return false;
    }
    TopIsNode(config, state);
    if !p.parent.HasType(parentType) {
      return false;
    }
    var v := Classify(text, quoted, strtod);
    if v.None? {
      return false;
    }
    PutKeepsTop(m, Leaf(v.value));
    var node := PutAtParent(config, state, Leaf(v.value));
    if node == null {
      return false;
    }
    TypeOfTop(config, state);
    AdvanceAtTop(MachineOf(config, state));
    MoveOn(config, state, p, 0);
    return true;
  }

  /** `sconf_yaml_parent_remove`. */
  method RemoveParent(config: Config, state: YamlState) returns (ok: bool)
    requires Ready(config, state)
    modifies state
    ensures config.Valid() && state.Valid() && state !in config.ledger.owner
    ensures forall f :: f in state.frames ==> f in old(state.frames) || fresh(f)
    ensures match ParentRemove(old(MachineOf(config, state)))
      case Running(m) => ok && Ready(config, state) && MachineOf(config, state) == m
      case Failed(t) => !ok && config.ledger.tree == t
  {
    hide Linked, NoLeak, Sound, Chain;
    PopKeeps(MachineOf(config, state));
    ok := state.Pop();
  }

  /** `state->state = mode`. */
  method SetMode(config: Config, state: YamlState, mode: Mode)
    requires Ready(config, state)
    modifies state`state
    ensures Ready(config, state) && MachineOf(config, state) == old(MachineOf(config, state)).(mode := mode)
  {
    hide Linked, NoLeak, Chain, Chained, Live;
    state.state := mode;
  }

  /** The key is remembered. */
  method SetKey(config: Config, state: YamlState, key: string)
    requires Ready(config, state)
    modifies state`currKey
    ensures Ready(config, state) && MachineOf(config, state) == old(MachineOf(config, state)).(key := Some(key))
  {
    hide Linked, NoLeak, Chain, Chained, Live;
    state.currKey := Some(key);
  }

  lemma ReadyParts(config: Config, state: YamlState)
    requires Ready(config, state)
    ensures config.Valid() && state.Valid() && state !in config.ledger.owner && OnTree(MachineOf(config, state))
    ensures Sound(MachineOf(config, state))
  {}

  /** The switch on the event in state BLOCK. */
  method ConsumeInBlock(config: Config, state: YamlState, e: Event, strtod: Strtod) returns (ok: bool)
    requires Ready(config, state) && Roomy(state) && state.state == InBlock
    modifies config`ledger, config`live, config.ledger.owner.Keys, state, state.frames
    ensures config.Valid() && config.root == old(config.root) && state.Valid() && state !in config.ledger.owner
    ensures forall f :: f in state.frames ==> f in old(state.frames) || fresh(f)
    ensures fresh(config.ledger.owner.Keys - old(config.ledger).owner.Keys)
    ensures Keeps(old(config.ledger).at, config.ledger.at)
    ensures OnTree(old(MachineOf(config, state)))
    ensures match Step(old(MachineOf(config, state)), e, strtod)
      case Running(m) => ok && Ready(config, state) && MachineOf(config, state) == m
      case Failed(t) => !ok && config.ledger.tree == t
  {
    hide Linked, Owned, Holds, Node.Valid, NoLeak, Config.Valid, Sound, YamlState.Valid, Attached, Chain;
    hide ParentAdd, NodeAdd, ParentRemove, Push;
    StepKeeps(MachineOf(config, state), e, strtod);
    ReadyParts(config, state);
    match e {
      case ScalarEvent(text, _) =>
        if state.currKey.Some? {
          return false;
        }
        SetKey(config, state, text);
        SetMode(config, state, InBlockContent);
        return true;
      case SequenceEnd =>
        ok := RemoveParent(config, state);
      case MappingEnd =>
        ok := RemoveParent(config, state);
        if ok {
          ReadyParts(config, state);
          EmptyStack(state);
          if state.currParent != null {
            TopIsNode(config, state);
            if state.currParent.parent.value.ArrayValue? {
              SetMode(config, state, InSequence);
            }
          }
        }
      case MappingStart =>
        ok := AddParent(config, state, Dict);
      case DocumentEnd =>
        SetMode(config, state, InStream);
        return true;
      case _ =>
        return false;
    }
  }

  /** The switch on the event in state BLOCK_CONTENT. */
  method ConsumeInContent(config: Config, state: YamlState, e: Event, strtod: Strtod) returns (ok: bool)
    requires Ready(config, state) && Roomy(state) && state.state == InBlockContent
    modifies config`ledger, config`live, config.ledger.owner.Keys, state, state.frames
    ensures config.Valid() && config.root == old(config.root) && state.Valid() && state !in config.ledger.owner
    ensures forall f :: f in state.frames ==> f in old(state.frames) || fresh(f)
    ensures fresh(config.ledger.owner.Keys - old(config.ledger).owner.Keys)
    ensures Keeps(old(config.ledger).at, config.ledger.at)
    ensures OnTree(old(MachineOf(config, state)))
    ensures match Step(old(MachineOf(config, state)), e, strtod)
      case Running(m) => ok && Ready(config, state) && MachineOf(config, state) == m
      case Failed(t) => !ok && config.ledger.tree == t
  {
    hide Linked, Owned, Holds, Node.Valid, NoLeak, Config.Valid, Sound, YamlState.Valid, Attached, Chain;
    hide ParentAdd, NodeAdd, ParentRemove, Push;
    StepKeeps(MachineOf(config, state), e, strtod);
    ReadyParts(config, state);
    match e {
      case ScalarEvent(text, quoted) =>
        ok := AddNode(config, state, Dict, text, quoted, strtod);
        if ok {
          SetMode(config, state, InBlock);
        }
      case MappingStart =>
        ok := AddParent(config, state, Dict);
        if ok {
          SetMode(config, state, InBlock);
        }
      case SequenceStart =>
        ok := AddParent(config, state, Array);
        if ok {
          SetMode(config, state, InSequence);
        }
      case _ =>
        return false;
    }
  }

  /** The switch on the event in state SEQUENCE. */
  method ConsumeInSequence(config: Config, state: YamlState, e: Event, strtod: Strtod) returns (ok: bool)
    requires Ready(config, state) && Roomy(state) && state.state == InSequence
    modifies config`ledger, config`live, config.ledger.owner.Keys, state, state.frames
    ensures config.Valid() && config.root == old(config.root) && state.Valid() && state !in config.ledger.owner
    ensures forall f :: f in state.frames ==> f in old(state.frames) || fresh(f)
    ensures fresh(config.ledger.owner.Keys - old(config.ledger).owner.Keys)
    ensures Keeps(old(config.ledger).at, config.ledger.at)
    ensures OnTree(old(MachineOf(config, state)))
    ensures match Step(old(MachineOf(config, state)), e, strtod)
      case Running(m) => ok && Ready(config, state) && MachineOf(config, state) == m
      case Failed(t) => !ok && config.ledger.tree == t
  {
    hide Linked, Owned, Holds, Node.Valid, NoLeak, Config.Valid, Sound, YamlState.Valid, Attached, Chain;
    hide ParentAdd, NodeAdd, ParentRemove, Push;
    StepKeeps(MachineOf(config, state), e, strtod);
    ReadyParts(config, state);
    match e {
      case ScalarEvent(text, quoted) =>
        ok := AddNode(config, state, Array, text, quoted, strtod);
      case MappingStart =>
        ok := AddParent(config, state, Dict);
        if ok {
          SetMode(config, state, InBlock);
        }
      case SequenceStart =>
        ok := AddParent(config, state, Array);
        if ok {
          SetMode(config, state, InSequence);
        }
      case SequenceEnd =>
        ok := RemoveParent(config, state);
        if ok {
          SetMode(config, state, InBlock);
        }
      case _ =>
        return false;
    }
  }

  /** The push of the root at the start of a document. */
  method PushRoot(config: Config, state: YamlState) returns (ok: bool)
    requires Ready(config, state)
    modifies state
    ensures config.Valid() && state.Valid() && state !in config.ledger.owner
    ensures forall f :: f in state.frames ==> f in old(state.frames) || fresh(f)
    ensures match Push(old(MachineOf(config, state)), [])
      case Running(m) => ok && Ready(config, state) && MachineOf(config, state) == m
      case Failed(t) => !ok && config.ledger.tree == t
  {
    hide Owned, NoLeak, Chained, Live, Chain;
    RootPush(MachineOf(config, state));
    ok := state.Push(config.root, []);
  }

  /** `sconf_yaml_consume_event`: the machine makes one step. */
  method ConsumeEvent(config: Config, state: YamlState, e: Event, strtod: Strtod) returns (ok: bool)
    requires Ready(config, state) && Roomy(state)
    modifies config`ledger, config`live, config.ledger.owner.Keys, state, state.frames
    ensures config.Valid() && config.root == old(config.root) && state.Valid() && state !in config.ledger.owner
    ensures forall f :: f in state.frames ==> f in old(state.frames) || fresh(f)
    ensures fresh(config.ledger.owner.Keys - old(config.ledger).owner.Keys)
    ensures Keeps(old(config.ledger).at, config.ledger.at)
    ensures OnTree(old(MachineOf(config, state)))
    ensures match Step(old(MachineOf(config, state)), e, strtod)
      case Running(m) => ok && Ready(config, state) && MachineOf(config, state) == m
      case Failed(t) => !ok && config.ledger.tree == t
  {
    hide Linked, Owned, Holds, Node.Valid, NoLeak, Config.Valid, Sound, YamlState.Valid, Attached, Chain;
    hide ParentAdd, NodeAdd, ParentRemove, Push;
    StepKeeps(MachineOf(config, state), e, strtod);
    ReadyParts(config, state);
    match state.state {
      case AtStart =>
        if e.StreamStart? {
          SetMode(config, state, InStream);
          return true;
        }
        return false;
      case AtStop =>
        return true;
      case InStream =>
        if e.DocumentStart? {
          SetMode(config, state, InDocument);
          return true;
        } else if e.StreamEnd? {
          SetMode(config, state, AtStop);
          return true;
        }
        return false;
      case InDocument =>
        if e.MappingStart? {
          ok := PushRoot(config, state);
          if ok {
            SetMode(config, state, InBlock);
          }
        } else if e.DocumentEnd? {
          SetMode(config, state, InStream);
          return true;
        } else {
          return false;
        }
      case InBlock =>
        hide Step;
        ok := ConsumeInBlock(config, state, e, strtod);
      case InBlockContent =>
        hide Step;
        ok := ConsumeInContent(config, state, e, strtod);
      case InSequence =>
        hide Step;
        ok := ConsumeInSequence(config, state, e, strtod);
    }
  }

  // ----- the event loop

  /** Counters and key stay within what the first n events can have made of them. */
  ghost predicate Modest(m: Machine, n: nat) {
    && (forall k :: 0 <= k < |m.stack| ==> m.stack[k].index <= n)
    && (m.key.Some? ==> SafeName(m.key.value))
  }

  predicate SafeEvent(e: Event) {
    e.ScalarEvent? ==> SafeName(e.text)
  }

  ghost predicate ModestOutcome(r: Outcome, n: nat) {
    r.Running? ==> Modest(r.m, n)
  }

  lemma ParentAddModest(m: Machine, n: nat, container: Entry)
    requires OnTree(m) && Modest(m, n)
    ensures ModestOutcome(ParentAdd(m, container), n + 1)
  {
    hide SafeName, Put;
  }

  lemma NodeAddModest(m: Machine, n: nat, parentType: Entry, text: string, quoted: bool, strtod: Strtod)
    requires OnTree(m) && Modest(m, n)
    ensures ModestOutcome(NodeAdd(m, parentType, text, quoted, strtod), n + 1)
  {
    hide SafeName, Put, Classify;
  }

  lemma MovesModest(m: Machine, n: nat)
    requires Modest(m, n)
    ensures ModestOutcome(ParentRemove(m), n + 1) && ModestOutcome(Push(m, []), n + 1) && Modest(m, n + 1)
  {
    hide SafeName;
  }

  lemma StepModest(m: Machine, n: nat, e: Event, strtod: Strtod)
    requires OnTree(m) && Modest(m, n) && SafeEvent(e)
    ensures ModestOutcome(Step(m, e, strtod), n + 1)
  {
    hide SafeName, ParentAdd, NodeAdd, ParentRemove, Push;
    ParentAddModest(m, n, Dict);
    ParentAddModest(m, n, Array);
    MovesModest(m, n);
    if e.ScalarEvent? {
      NodeAddModest(m, n, Dict, e.text, e.quoted, strtod);
      NodeAddModest(m, n, Array, e.text, e.quoted, strtod);
    }
  }

  lemma StartReady(config: Config, state: YamlState)
    requires config.Valid() && state.Valid() && state.frames == [] && state.stack == [] && state !in config.ledger.owner
    ensures Ready(config, state) && WellFormed(config.ledger.tree)
  {
    hide Linked, NoLeak, WellFormed;
    TreeWellFormed(config);
  }

  /** Once stopped, the machine takes no notice of further events. */
  lemma {:induction false} RunStopped(m: Machine, es: seq<Event>, strtod: Strtod)
    requires Sound(m) && m.mode == AtStop
    ensures Run(m, es, strtod) == Running(m)
    decreases |es|
  {
    RunNext(m, es, strtod);
    if es != [] {
      RunStopped(m, es[1..], strtod);
    }
  }

  /** The loop has consumed i events and the machine has come to m. */
  ghost predicate Reading(m0: Machine, es: seq<Event>, strtod: Strtod, i: nat, m: Machine) {
    && i <= |es| && Sound(m0) && Sound(m) && Modest(m, i)
    && Run(m0, es, strtod) == Run(m, es[i..], strtod)
  }

  lemma ReadingStep(m0: Machine, es: seq<Event>, strtod: Strtod, i: nat, m: Machine)
    requires Reading(m0, es, strtod, i, m) && forall e :: e in es ==> SafeEvent(e)
    ensures OnTree(m) && Sound(m0)
    ensures i == |es| ==> Run(m0, es, strtod) == Running(m)
    ensures i < |es| ==> (match Step(m, es[i], strtod)
                          case Failed(t) => Run(m0, es, strtod) == Failed(t)
                          case Running(m') =>
                            && Reading(m0, es, strtod, i + 1, m')
                            && (m'.mode == AtStop ==> Run(m0, es, strtod) == Running(m')))
  {
    hide Run, Step, Sound, Modest, SafeEvent;
    RunNext(m, es[i..], strtod);
    if i < |es| {
      assert es[i] in es && es[i..][0] == es[i] && es[i..][1..] == es[i + 1..];
      StepModest(m, i, es[i], strtod);
      var r := Step(m, es[i], strtod);
      if r.Running? && r.m.mode == AtStop {
        RunStopped(r.m, es[i + 1..], strtod);
      }
    }
  }

  lemma ReadingStart(m: Machine, es: seq<Event>, strtod: Strtod)
    requires Sound(m) && m.stack == [] && m.key == None
    ensures Reading(m, es, strtod, 0, m)
  {
    assert es[0..] == es;
  }

  lemma ReadingRoom(m0: Machine, es: seq<Event>, strtod: Strtod, i: nat, config: Config, state: YamlState)
    requires Reading(m0, es, strtod, i, MachineOf(config, state)) && |es| < 0xffff_fff0
    ensures Roomy(state)
  {}

  /** The loop of `sconf_yaml_read`. */
  method EventLoop(config: Config, state: YamlState, es: seq<Event>, strtod: Strtod) returns (returnCode: int)
    requires Ready(config, state) && state.frames == []
    requires Reading(MachineOf(config, state), es, strtod, 0, MachineOf(config, state))
    requires state.state != AtStop && |es| < 0xffff_fff0 && forall e :: e in es ==> SafeEvent(e)
    modifies config`ledger, config`live, config.ledger.owner.Keys, state
    ensures config.Valid() && config.root == old(config.root) && state.Valid() && state !in config.ledger.owner
    ensures fresh(config.ledger.owner.Keys - old(config.ledger).owner.Keys)
    ensures Keeps(old(config.ledger).at, config.ledger.at)
    ensures Sound(old(MachineOf(config, state)))
    ensures returnCode == 0 || returnCode == -1
    ensures match Run(old(MachineOf(config, state)), es, strtod)
      case Running(m) => (returnCode == 0 <==> m.mode == AtStop) && config.ledger.tree == m.tree
      case Failed(t) => returnCode == -1 && config.ledger.tree == t
  {
    hide Linked, Owned, Holds, Node.Valid, NoLeak, Config.Valid, Sound, YamlState.Valid, Attached, Chain, Step, Run;
    hide Reading, Roomy, Coupled, SafeEvent;
    ghost var m0 := MachineOf(config, state);
    ReadyParts(config, state);
    var i := 0;
    while true
      invariant i <= |es|
      invariant Ready(config, state) && config.root == old(config.root)
      invariant fresh(config.ledger.owner.Keys - old(config.ledger).owner.Keys)
      invariant forall f :: f in state.frames ==> fresh(f)
      invariant Keeps(old(config.ledger).at, config.ledger.at)
      invariant Reading(m0, es, strtod, i, MachineOf(config, state)) && state.state != AtStop
      decreases |es| - i
    {
      ReadyParts(config, state);
      ReadingStep(m0, es, strtod, i, MachineOf(config, state));
      if i == |es| {
        return -1;
      }
      ReadingRoom(m0, es, strtod, i, config, state);
      assert forall k :: 0 <= k < |state.frames| ==> state.frames[k] in state.frames;
      var ok := ConsumeEvent(config, state, es[i], strtod);
      i := i + 1;
      if !ok {
        return -1;
      }
      if state.state == AtStop {
        CoupledParts(config, state);
        return 0;
      }
    }
  }

  lemma CoupledParts(config: Config, state: YamlState)
    requires Coupled(config, state)
    ensures config.Valid() && state.Valid() && state !in config.ledger.owner
  {}

  /**
   * `sconf_yaml_read` on the events of the file. The parser reports an error when it is asked for
   * more events than there are. The parser state is destroyed on every way out.
   */
  method ReadEvents(config: Config, es: seq<Event>, strtod: Strtod) returns (returnCode: int)
    requires config.Valid() && |es| < 0xffff_fff0 && forall e :: e in es ==> SafeEvent(e)
    modifies config`ledger, config`live, config.ledger.owner.Keys
    ensures config.Valid() && config.root == old(config.root)
    ensures fresh(config.ledger.owner.Keys - old(config.ledger).owner.Keys)
    ensures Keeps(old(config.ledger).at, config.ledger.at)
    ensures WellFormed(old(config.ledger.tree))
    ensures returnCode == 0 || returnCode == -1
    ensures Merged(returnCode == 0, config.ledger.tree) == Read(old(config.ledger.tree), es, strtod)
  {
    hide Linked, Owned, Holds, Node.Valid, NoLeak, Config.Valid, Sound, YamlState.Valid, Attached, Chain, Run, Reading;
    var state := new YamlState();
    StartReady(config, state);
    ReadingStart(MachineOf(config, state), es, strtod);
    returnCode := EventLoop(config, state, es, strtod);
    state.Destroy();
  }
}
