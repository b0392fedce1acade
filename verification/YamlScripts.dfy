/**
 * What the event machine writes, for every stream of mappings below every kind of root. A script is
 * a list of writes that depends on the documents alone. In most documents it is the list of the
 * merge; but a key that the machine has not dropped redirects or ends everything that follows.
 */
module YamlScripts {

  import opened Basics
  import opened Convert
  import opened ConfigTree
  import opened Yaml
  import opened YamlDocs
  import opened YamlLaws

  // ----- scripts

  /** The writes, the key that is pending after them, and the state of a machine on top of an array. */
  datatype Script = Script(tasks: seq<Task>, key: Option<string>, mode: Mode)

  function Sequel(p: Script, q: Script): Script {
    Script(p.tasks + q.tasks, q.key, q.mode)
  }

  function Refusal(key: Option<string>): Script {
    Script([Halt], key, InBlock)
  }

  lemma RefusalHalts(key: Option<string>)
    ensures Halt in Refusal(key).tasks
  {
    assert Refusal(key).tasks[0] == Halt;
  }

  /** The state after an element. */
  function ModeAfter(d: Doc): Mode {
    if d.Sequence? then InBlock else InSequence
  }

  /** A document at address c, while the given key is pending. */
  function ScriptChild(c: Addr, key: Option<string>, d: Doc, strtod: Strtod): Script
    decreases d, 0
  {
    match d
    case ScalarDoc(text, quoted) =>
      (match Classify(text, quoted, strtod)
       case None => Refusal(key)
       case Some(v) => Script([Store(c, Leaf(v))], key, InSequence))
    case Mapping(pairs) =>
      Sequel(Script([Store(c, Dict)], key, InBlock),
           if |c| >= MAX_DEPTH - 1 then Refusal(key)
           else ScriptPairs(c, key, pairs, strtod).(mode := InSequence))
    case Sequence(items) =>
      Sequel(Script([Store(c, Array)], key, InSequence),
           if |c| >= MAX_DEPTH - 1 then Refusal(key)
           else ScriptItems(c, 0, key, InSequence, items, strtod).(mode := InBlock))
  }

  /** Pairs of a mapping. A key cannot be taken while another one is pending. */
  function ScriptPairs(a: Addr, key: Option<string>, ps: Pairs, strtod: Strtod): Script
    decreases ps, 0
  {
    match ps
    case NoPairs => Script([], key, InBlock)
    case Pair(name, _, value, rest) =>
      if key.Some? then Refusal(key)
      else
        var p := ScriptChild(a + [Key(name)], None, value, strtod);
        Sequel(p, ScriptPairs(a, p.key, rest, strtod))
  }

  /** An element of an array; a pending key, if there is one, decides on its slot. */
  function ScriptElement(a: Addr, i: nat, key: Option<string>, d: Doc, strtod: Strtod): Script
    decreases d, 1
  {
    match Resolve(Array, key, i)
    case None => Refusal(key)
    case Some(s) => ScriptChild(a + [s], key, d, strtod)
  }

  /**
   * Elements of an array. Right after an inner sequence, in the block state, a mapping is an element,
   * a scalar is taken for a key if none is pending, and everything else is refused.
   */
  function ScriptItems(a: Addr, i: nat, key: Option<string>, mode: Mode, items: Items, strtod: Strtod): Script
    decreases items, 0
  {
    match items
    case NoItems => Script([], key, mode)
    case Item(head, tail) =>
      if mode == InBlock && !head.Mapping? then
        if key.None? && head.ScalarDoc? && tail.Item? && !tail.head.ScalarDoc? then
          var p := ScriptElement(a, i, Some(head.text), tail.head, strtod);
          Sequel(p, ScriptItems(a, i + 1, p.key, ModeAfter(tail.head), tail.tail, strtod))
        else Refusal(key)
      else
        var p := ScriptElement(a, i, key, head, strtod);
        Sequel(p, ScriptItems(a, i + 1, p.key, ModeAfter(head), tail, strtod))
  }

  // ----- one child

  /** The machine is about to read a child: the value of the pending key, or an element. */
  ghost predicate Placing(m: Machine, d: Doc) {
    && Sound(m) && m.stack != [] && |m.stack| == |m.stack[0].at| + 1
    && m.stack[0].at in m.tree
    && if m.tree[m.stack[0].at].Dict? then m.mode == InBlockContent && m.key.Some?
       else
         && m.tree[m.stack[0].at].Array?
         && (m.mode == InSequence || (m.mode == InBlock && d.Mapping?) || (m.mode == InBlockContent && !d.ScalarDoc?))
  }

  /** The child that is read. */
  ghost function Place(m: Machine): Option<Seg>
    requires m.stack != [] && m.stack[0].at in m.tree
  {
    Resolve(m.tree[m.stack[0].at], m.key, m.stack[0].index)
  }

  /** The key that is pending once the child has been made. Only a dict drops it. */
  ghost function KeptKey(m: Machine): Option<string>
    requires m.stack != [] && m.stack[0].at in m.tree
  {
    if m.tree[m.stack[0].at].Dict? then None else m.key
  }

  /** The machine once the child has been read, with this tree and this key. */
  ghost function Placed(m: Machine, d: Doc, t: Tree, key: Option<string>): (m': Machine)
    requires m.stack != [] && m.stack[0].at in m.tree
    ensures m'.tree == t && m'.key == key
  {
    var p := m.stack[0];
    if m.tree[p.at].Dict? then m.(tree := t, key := key, mode := InBlock)
    else m.(tree := t, key := key, mode := ModeAfter(d), stack := [p.(index := p.index + 1)] + m.stack[1..])
  }

  /** The machine inside a container that the child has opened. */
  ghost function Inside(m: Machine, d: Doc, f: Frame, mode: Mode, t: Tree, key: Option<string>): Machine
    requires m.stack != [] && m.stack[0].at in m.tree
  {
    var m' := Placed(m, d, t, key);
    m'.(mode := mode, stack := [f] + m'.stack)
  }

  /** The state inside a container at its start. */
  function ModeInside(d: Doc): Mode {
    if d.Sequence? then InSequence else InBlock
  }

  /** A run has performed a list of tasks, ending in this machine when that succeeds. */
  ghost predicate Does(r: Outcome, done: Merged, m: Machine) {
    r == if done.ok then Running(m) else Failed(done.tree)
  }

  lemma PlacingPut(m: Machine, d: Doc, e: Entry)
    requires Placing(m, d)
    ensures OnTree(m)
    ensures var put := Put(m.tree, m.stack[0].at, m.key, m.stack[0].index, Some(e));
      match Place(m)
      case None => put == Refused
      case Some(s) =>
        var c := m.stack[0].at + [s];
        && put == (if Write(m.tree, c, e).ok then Stored(Write(m.tree, c, e).tree, c) else Refused)
        && (!Write(m.tree, c, e).ok ==> Write(m.tree, c, e).tree == m.tree)
  {
    ReadyMachine(m);
  }

  lemma NoTasks(t: Tree)
    ensures Perform(t, []) == Merged(true, t)
  {}

  /** The step on a scalar. */
  lemma ScalarStep(m: Machine, d: Doc, strtod: Strtod)
    requires Placing(m, d) && d.ScalarDoc?
    ensures OnTree(m)
    ensures var r := NodeAdd(m, if m.tree[m.stack[0].at].Dict? then Dict else Array, d.text, d.quoted, strtod);
      Step(m, ScalarEvent(d.text, d.quoted), strtod) == if m.tree[m.stack[0].at].Dict? then InMode(r, InBlock) else r
  {
    hide NodeAdd, Chained, Live;
    ReadyMachine(m);
  }

  lemma AdvanceScalar(m: Machine, d: Doc, t: Tree)
    requires Placing(m, d) && d.ScalarDoc? && m.stack[0].at in t
    requires TypeOf(t[m.stack[0].at]) == TypeOf(m.tree[m.stack[0].at])
    ensures var m' := Advance(m.(tree := t));
      Placed(m, d, t, KeptKey(m)) == if m.tree[m.stack[0].at].Dict? then m'.(mode := InBlock) else m'
  {
    hide Sound;
  }

  lemma ScalarRun(m: Machine, d: Doc, strtod: Strtod)
    requires Placing(m, d) && d.ScalarDoc?
    ensures match Place(m)
      case None => Run(m, Events(d), strtod) == Failed(m.tree)
      case Some(s) =>
        var p := ScriptChild(m.stack[0].at + [s], KeptKey(m), d, strtod);
        var r := Perform(m.tree, p.tasks);
        Does(Run(m, Events(d), strtod), r, Placed(m, d, r.tree, p.key))
  {
    hide Put, Run, Perform, Write, Chained, Live, Advance, Place, KeptKey, Step;
    var v := Classify(d.text, d.quoted, strtod);
    RunOne(m, ScalarEvent(d.text, d.quoted), strtod);
    ScalarStep(m, d, strtod);
    PerformOne(m.tree, Halt);
    if v.Some? {
      PlacingPut(m, d, Leaf(v.value));
      PutAtTop(m, Leaf(v.value));
      if Place(m).Some? {
        var c := m.stack[0].at + [Place(m).value];
        PerformOne(m.tree, Store(c, Leaf(v.value)));
        var w := Write(m.tree, c, Leaf(v.value));
        if w.ok {
          assert TypeOf(w.tree[m.stack[0].at]) == TypeOf(m.tree[m.stack[0].at]);
          AdvanceScalar(m, d, w.tree);
        }
      }
    }
  }

  // ----- the start and the end of a container

  lemma PushInside(m: Machine, d: Doc, c: Addr, t: Tree)
    requires Placing(m, d) && !d.ScalarDoc? && m.stack[0].at in t && |m.stack| < MAX_DEPTH - 1
    requires TypeOf(t[m.stack[0].at]) == TypeOf(m.tree[m.stack[0].at])
    ensures InMode(Push(Advance(m.(tree := t)), c), ModeInside(d))
      == Running(Inside(m, d, Frame(c, 0), ModeInside(d), t, KeptKey(m)))
  {
    hide Sound;
  }

  lemma StartStep(m: Machine, d: Doc, strtod: Strtod)
    requires Placing(m, d) && !d.ScalarDoc?
    ensures OnTree(m)
    ensures Step(m, StartEvent(d), strtod) == InMode(ParentAdd(m, Container(d)), ModeInside(d))
  {
    hide Put, Chained, Live;
    ReadyMachine(m);
  }

  lemma OpenRun(m: Machine, d: Doc, strtod: Strtod)
    requires Placing(m, d) && !d.ScalarDoc?
    ensures var r := Run(m, [StartEvent(d)], strtod);
      match Place(m)
      case None => r == Failed(m.tree)
      case Some(s) =>
        var c := m.stack[0].at + [s];
        var w := Write(m.tree, c, Container(d));
        && (!w.ok || |m.stack| >= MAX_DEPTH - 1 ==> r == Failed(w.tree))
        && (w.ok && |m.stack| < MAX_DEPTH - 1 ==>
              && r == Running(Inside(m, d, Frame(c, 0), ModeInside(d), w.tree, KeptKey(m)))
              && Extends(m.tree, w.tree) && c in w.tree && w.tree[c] == Container(d))
  {
    hide Put, Run, Write, Chained, Live, Push, Advance, Inside, Place, Step, KeptKey;
    RunOne(m, StartEvent(d), strtod);
    StartStep(m, d, strtod);
    PlacingPut(m, d, Container(d));
    PutAtTop(m, Container(d));
    if Place(m).Some? {
      var c := m.stack[0].at + [Place(m).value];
      var w := Write(m.tree, c, Container(d));
      if w.ok {
        assert TypeOf(w.tree[m.stack[0].at]) == TypeOf(m.tree[m.stack[0].at]);
        if |m.stack| < MAX_DEPTH - 1 {
          PushInside(m, d, c, w.tree);
        }
      }
    }
  }

  /** The end of a mapping as a child. */
  lemma CloseMapping(m: Machine, d: Doc, f: Frame, t: Tree, key: Option<string>, strtod: Strtod)
    requires Placing(m, d) && d.Mapping?
    requires Sound(Inside(m, d, f, InBlock, t, key)) && Extends(m.tree, t)
    ensures Run(Inside(m, d, f, InBlock, t, key), [MappingEnd], strtod) == Running(Placed(m, d, t, key))
  {
    hide Run, Sound;
    var m' := Inside(m, d, f, InBlock, t, key);
    RunOne(m', MappingEnd, strtod);
    assert m'.stack[1..] == Placed(m, d, t, key).stack;
    assert TypeOf(t[m.stack[0].at]) == TypeOf(m.tree[m.stack[0].at]);
  }

  /** The machine once the array on top has been closed. */
  ghost function Popped(m: Machine, t: Tree, key: Option<string>): Machine
    requires m.stack != []
  {
    m.(tree := t, key := key, mode := InBlock, stack := m.stack[1..])
  }

  /** The event that ends an array, or what stands for one at the root. */
  predicate IsEnd(m: Machine, e: Event) {
    e.SequenceEnd? || (e.MappingEnd? && |m.stack| == 1)
  }

  lemma CloseArray(m: Machine, e: Event, strtod: Strtod)
    requires Sound(m) && m.stack != [] && IsEnd(m, e)
    requires m.mode == InSequence || m.mode == InBlock
    ensures Run(m, [e], strtod) ==
      if e.SequenceEnd? || m.mode == InBlock then Running(Popped(m, m.tree, m.key)) else Failed(m.tree)
  {
    hide Run, Sound;
    RunOne(m, e, strtod);
  }

  /** Neither a scalar nor a sequence is taken in the block state while a key is pending. */
  lemma KeyRefused(m: Machine, es: seq<Event>, strtod: Strtod)
    requires Sound(m) && m.mode == InBlock && m.key.Some? && es != [] && (es[0].ScalarEvent? || es[0].SequenceStart?)
    ensures Run(m, es, strtod) == Failed(m.tree)
  {
    hide Sound;
    RunNext(m, es, strtod);
  }

  // ----- pairs and elements

  /** On top of a dict, in the block state. */
  ghost predicate AtPairs(m: Machine) {
    && Sound(m) && m.stack != [] && |m.stack| == |m.stack[0].at| + 1
    && m.stack[0].at in m.tree && m.tree[m.stack[0].at].Dict?
    && m.mode == InBlock
  }

  /** On top of an array. */
  ghost predicate AtItems(m: Machine) {
    && Sound(m) && m.stack != [] && |m.stack| == |m.stack[0].at| + 1
    && m.stack[0].at in m.tree && m.tree[m.stack[0].at].Array?
    && (m.mode == InSequence || m.mode == InBlock)
  }

  /** What is known of the machine after the start event of a container. */
  lemma InsideFacts(m: Machine, d: Doc, strtod: Strtod)
    requires Placing(m, d) && !d.ScalarDoc? && Place(m).Some?
    requires var c := m.stack[0].at + [Place(m).value];
      Write(m.tree, c, Container(d)).ok && |m.stack| < MAX_DEPTH - 1
    ensures var c := m.stack[0].at + [Place(m).value];
      var w := Write(m.tree, c, Container(d));
      var m1 := Inside(m, d, Frame(c, 0), ModeInside(d), w.tree, KeptKey(m));
      && Sound(m1) && m1.tree == w.tree && m1.key == KeptKey(m) && Extends(m.tree, w.tree)
      && m1.stack != [] && m1.stack[0] == Frame(c, 0) && m1.stack[1..] == Placed(m, d, w.tree, None).stack
      && (d.Mapping? ==> AtPairs(m1))
      && (d.Sequence? ==> AtItems(m1))
  {
    hide Run, Sound, Place;
    OpenRun(m, d, strtod);
  }

  /** A container as a child, given what its content does. */
  lemma MappingRun(m: Machine, d: Doc, strtod: Strtod)
    requires Placing(m, d) && d.Mapping? && Place(m).Some?
    requires var c := m.stack[0].at + [Place(m).value];
      var w := Write(m.tree, c, Dict);
      w.ok && |m.stack| < MAX_DEPTH - 1 ==>
        var m1 := Inside(m, d, Frame(c, 0), InBlock, w.tree, KeptKey(m));
        var p := ScriptPairs(c, KeptKey(m), d.pairs, strtod);
        var r := Perform(w.tree, p.tasks);
        && Sound(m1) && Extends(m.tree, w.tree)
        && Does(Run(m1, PairEvents(d.pairs), strtod), r, m1.(tree := r.tree, key := p.key))
    ensures var p := ScriptChild(m.stack[0].at + [Place(m).value], KeptKey(m), d, strtod);
      var r := Perform(m.tree, p.tasks);
      Does(Run(m, Events(d), strtod), r, Placed(m, d, r.tree, p.key))
  {
    hide Run, Sound, Write, ScriptPairs, Perform, Place, KeptKey;
    var c := m.stack[0].at + [Place(m).value];
    var w := Write(m.tree, c, Dict);
    OpenRun(m, d, strtod);
    RunEnclosed(m, MappingStart, PairEvents(d.pairs), MappingEnd, strtod);
    var p := ScriptPairs(c, KeptKey(m), d.pairs, strtod);
    PerformConcat(m.tree, [Store(c, Dict)], if |c| >= MAX_DEPTH - 1 then [Halt] else p.tasks);
    PerformOne(m.tree, Store(c, Dict));
    PerformOne(w.tree, Halt);
    if w.ok && |m.stack| < MAX_DEPTH - 1 {
      var m1 := Inside(m, d, Frame(c, 0), InBlock, w.tree, KeptKey(m));
      var r := Perform(w.tree, p.tasks);
      if r.ok {
        StepsExtend(m1, Run(m1, PairEvents(d.pairs), strtod));
        ExtendsTransitive(m.tree, w.tree, r.tree);
        assert m1.(tree := r.tree, key := p.key) == Inside(m, d, Frame(c, 0), InBlock, r.tree, p.key);
        CloseMapping(m, d, Frame(c, 0), r.tree, p.key, strtod);
      }
    }
  }

  lemma SequenceRun(m: Machine, d: Doc, strtod: Strtod)
    requires Placing(m, d) && d.Sequence? && Place(m).Some?
    requires var c := m.stack[0].at + [Place(m).value];
      var w := Write(m.tree, c, Array);
      w.ok && |m.stack| < MAX_DEPTH - 1 ==>
        var m1 := Inside(m, d, Frame(c, 0), InSequence, w.tree, KeptKey(m));
        var p := ScriptItems(c, 0, KeptKey(m), InSequence, d.items, strtod);
        var r := Perform(w.tree, p.tasks);
        && Sound(m1)
        && Run(m1, ItemEvents(d.items) + [SequenceEnd], strtod) ==
             if r.ok then Running(Popped(m1, r.tree, p.key)) else Failed(r.tree)
    ensures var p := ScriptChild(m.stack[0].at + [Place(m).value], KeptKey(m), d, strtod);
      var r := Perform(m.tree, p.tasks);
      Does(Run(m, Events(d), strtod), r, Placed(m, d, r.tree, p.key))
  {
    hide Run, Sound, Write, ScriptItems, Perform, Place, KeptKey;
    var c := m.stack[0].at + [Place(m).value];
    var w := Write(m.tree, c, Array);
    OpenRun(m, d, strtod);
    assert Events(d) == [SequenceStart] + (ItemEvents(d.items) + [SequenceEnd]);
    RunConcat(m, [SequenceStart], ItemEvents(d.items) + [SequenceEnd], strtod);
    var p := ScriptItems(c, 0, KeptKey(m), InSequence, d.items, strtod);
    PerformConcat(m.tree, [Store(c, Array)], if |c| >= MAX_DEPTH - 1 then [Halt] else p.tasks);
    PerformOne(m.tree, Store(c, Array));
    PerformOne(w.tree, Halt);
    if w.ok && |m.stack| < MAX_DEPTH - 1 {
      var m1 := Inside(m, d, Frame(c, 0), InSequence, w.tree, KeptKey(m));
      var r := Perform(w.tree, p.tasks);
      assert m1.stack[1..] == Placed(m, d, r.tree, p.key).stack;
      assert Popped(m1, r.tree, p.key) == Placed(m, d, r.tree, p.key);
    }
  }

  /** Reading one child is performing its script. */
  lemma {:induction false} ChildRun(m: Machine, d: Doc, strtod: Strtod)
    requires Placing(m, d)
    ensures match Place(m)
      case None => Run(m, Events(d), strtod) == Failed(m.tree)
      case Some(s) =>
        var p := ScriptChild(m.stack[0].at + [s], KeptKey(m), d, strtod);
        var r := Perform(m.tree, p.tasks);
        Does(Run(m, Events(d), strtod), r, Placed(m, d, r.tree, p.key))
    decreases d
  {
    hide Run, Sound, Write, Perform, Place, KeptKey, ScriptPairs, ScriptItems, ScriptChild, Events, Placed;
    if d.ScalarDoc? {
      ScalarRun(m, d, strtod);
    } else if Place(m).None? {
      NoPlace(m, d, strtod);
    } else {
      var c := m.stack[0].at + [Place(m).value];
      var w := Write(m.tree, c, Container(d));
      if w.ok && |m.stack| < MAX_DEPTH - 1 {
        InsideFacts(m, d, strtod);
        var m1 := Inside(m, d, Frame(c, 0), ModeInside(d), w.tree, KeptKey(m));
        if d.Mapping? {
          PairsRun(m1, d.pairs, strtod);
        } else {
          ItemsRun(m1, d.items, SequenceEnd, strtod);
        }
      }
      if d.Mapping? {
        MappingRun(m, d, strtod);
      } else {
        SequenceRun(m, d, strtod);
      }
    }
  }

  lemma NoPlace(m: Machine, d: Doc, strtod: Strtod)
    requires Placing(m, d) && !d.ScalarDoc? && Place(m).None?
    ensures Run(m, Events(d), strtod) == Failed(m.tree)
  {
    hide Run, Sound, Place;
    OpenRun(m, d, strtod);
    assert Events(d) == [StartEvent(d)] + Events(d)[1..];
    RunConcat(m, [StartEvent(d)], Events(d)[1..], strtod);
  }

  /** The machine after the key of a pair, if it is taken. */
  lemma KeyRun(m: Machine, ps: Pairs, strtod: Strtod)
    requires AtPairs(m) && ps.Pair?
    ensures m.key.Some? ==> Run(m, PairEvents(ps), strtod) == Failed(m.tree)
    ensures m.key.None? ==>
      var m1 := m.(key := Some(ps.key), mode := InBlockContent);
      && Sound(m1) && Placing(m1, ps.value) && Place(m1) == Some(Key(ps.key)) && KeptKey(m1) == None
      && Run(m, PairEvents(ps), strtod) == Then(Run(m1, Events(ps.value), strtod), PairEvents(ps.rest), strtod)
  {
    hide Run, Sound, Events;
    if m.key.Some? {
      KeyRefused(m, PairEvents(ps), strtod);
    } else {
      RunOne(m, ScalarEvent(ps.key, ps.keyQuoted), strtod);
      RunConcat(m, [ScalarEvent(ps.key, ps.keyQuoted)] + Events(ps.value), PairEvents(ps.rest), strtod);
      RunConcat(m, [ScalarEvent(ps.key, ps.keyQuoted)], Events(ps.value), strtod);
    }
  }

  /** Reading the pairs of a mapping is performing their script. */
  lemma {:induction false} PairsRun(m: Machine, ps: Pairs, strtod: Strtod)
    requires AtPairs(m)
    ensures var p := ScriptPairs(m.stack[0].at, m.key, ps, strtod);
      var r := Perform(m.tree, p.tasks);
      Does(Run(m, PairEvents(ps), strtod), r, m.(tree := r.tree, key := p.key))
    decreases ps
  {
    hide Run, Sound, Events, PairEvents, Perform, ScriptChild, Place, KeptKey, Placing;
    if ps.NoPairs? {
      NoTasks(m.tree);
      NoPairsRun(m, strtod);
    } else {
      KeyRun(m, ps, strtod);
      PerformOne(m.tree, Halt);
      if m.key.None? {
        var m1 := m.(key := Some(ps.key), mode := InBlockContent);
        var first := ScriptChild(m.stack[0].at + [Key(ps.key)], None, ps.value, strtod);
        ChildRun(m1, ps.value, strtod);
        PerformConcat(m.tree, first.tasks, ScriptPairs(m.stack[0].at, first.key, ps.rest, strtod).tasks);
        var r := Perform(m.tree, first.tasks);
        if r.ok {
          StepsExtend(m1, Run(m1, Events(ps.value), strtod));
          assert Placed(m1, ps.value, r.tree, first.key) == m.(tree := r.tree, key := first.key);
          assert TypeOf(r.tree[m.stack[0].at]) == TypeOf(m.tree[m.stack[0].at]);
          PairsRun(m.(tree := r.tree, key := first.key), ps.rest, strtod);
        }
      }
    }
  }

  lemma NoPairsRun(m: Machine, strtod: Strtod)
    requires Sound(m)
    ensures PairEvents(NoPairs) == [] && Run(m, [], strtod) == Running(m)
  {
    RunNext(m, [], strtod);
  }

  /** An element, and the machine after it. */
  lemma ElementRun(m: Machine, d: Doc, strtod: Strtod)
    requires Placing(m, d) && m.tree[m.stack[0].at].Array?
    requires match Place(m)
      case None => Run(m, Events(d), strtod) == Failed(m.tree)
      case Some(s) =>
        var p := ScriptChild(m.stack[0].at + [s], KeptKey(m), d, strtod);
        var r := Perform(m.tree, p.tasks);
        Does(Run(m, Events(d), strtod), r, Placed(m, d, r.tree, p.key))
    ensures var p := ScriptElement(m.stack[0].at, m.stack[0].index, m.key, d, strtod);
      var r := Perform(m.tree, p.tasks);
      var m1 := Placed(m, d, r.tree, p.key);
      && Does(Run(m, Events(d), strtod), r, m1)
      && (r.ok ==>
            && AtItems(m1) && m1.tree == r.tree && m1.key == p.key && m1.mode == ModeAfter(d)
            && |m1.stack| == |m.stack| && m1.stack[1..] == m.stack[1..]
            && m1.stack[0] == Frame(m.stack[0].at, m.stack[0].index + 1))
  {
    hide Run, Sound, Events, Perform, ScriptChild;
    var p := ScriptElement(m.stack[0].at, m.stack[0].index, m.key, d, strtod);
    PerformOne(m.tree, Halt);
    var r := Perform(m.tree, p.tasks);
    if r.ok {
      StepsExtend(m, Run(m, Events(d), strtod));
      assert TypeOf(r.tree[m.stack[0].at]) == TypeOf(m.tree[m.stack[0].at]);
    }
  }

  /** An element and those after it. */
  lemma ThenItems(m: Machine, d: Doc, m0: Machine, rest: Items, e: Event, strtod: Strtod)
    requires Sound(m) && m.stack != [] && m0.stack != [] && m.stack[1..] == m0.stack[1..]
    requires m0.(tree := m.tree, key := m.key, mode := m.mode, stack := m.stack) == m
    requires var p := ScriptElement(m.stack[0].at, m.stack[0].index, m.key, d, strtod);
      var r := Perform(m.tree, p.tasks);
      var m1 := Placed(m, d, r.tree, p.key);
      && m.stack[0].at in m.tree
      && Does(Run(m, Events(d), strtod), r, m1)
      && (r.ok ==>
            && Sound(m1) && m1.stack != [] && m1.stack[1..] == m.stack[1..]
            && var q := ScriptItems(m.stack[0].at, m.stack[0].index + 1, p.key, ModeAfter(d), rest, strtod);
               var r' := Perform(r.tree, q.tasks);
               Run(m1, ItemEvents(rest) + [e], strtod) ==
               if r'.ok && (e.SequenceEnd? || q.mode == InBlock) then Running(Popped(m1, r'.tree, q.key))
               else Failed(r'.tree))
    ensures var p := ScriptElement(m.stack[0].at, m.stack[0].index, m.key, d, strtod);
      var q := Sequel(p, ScriptItems(m.stack[0].at, m.stack[0].index + 1, p.key, ModeAfter(d), rest, strtod));
      var r := Perform(m.tree, q.tasks);
      Run(m, Events(d) + (ItemEvents(rest) + [e]), strtod) ==
      if r.ok && (e.SequenceEnd? || q.mode == InBlock) then Running(Popped(m0, r.tree, q.key)) else Failed(r.tree)
  {
    hide Run, Sound, Events, ItemEvents, Perform, ScriptElement, ScriptItems;
    var p := ScriptElement(m.stack[0].at, m.stack[0].index, m.key, d, strtod);
    RunConcat(m, Events(d), ItemEvents(rest) + [e], strtod);
    PerformConcat(m.tree, p.tasks,
      ScriptItems(m.stack[0].at, m.stack[0].index + 1, p.key, ModeAfter(d), rest, strtod).tasks);
  }

  /** A scalar right after an inner sequence becomes a key, and what follows has to be a container. */
  lemma StrayKey(m: Machine, text: string, quoted: bool, e: Event, es: seq<Event>, strtod: Strtod)
    requires AtItems(m) && m.mode == InBlock && m.key.None?
    ensures var m1 := m.(key := Some(text), mode := InBlockContent);
      && Sound(m1)
      && Run(m, [ScalarEvent(text, quoted)] + ([e] + es), strtod) == Run(m1, [e] + es, strtod)
      && (e.ScalarEvent? || e.SequenceEnd? || e.MappingEnd? ==> Run(m1, [e] + es, strtod) == Failed(m.tree))
  {
    hide Run, Chained, Live, Put, Classify;
    var m1 := m.(key := Some(text), mode := InBlockContent);
    RunOne(m, ScalarEvent(text, quoted), strtod);
    RunConcat(m, [ScalarEvent(text, quoted)], [e] + es, strtod);
    RunNext(m1, [e] + es, strtod);
  }

  /** The elements that are refused in the block state. */
  lemma RefusedItems(m: Machine, items: Items, e: Event, strtod: Strtod)
    requires AtItems(m) && IsEnd(m, e) && items.Item? && m.mode == InBlock && !items.head.Mapping?
    requires m.key.Some? || items.head.Sequence? || items.tail.NoItems? || items.tail.head.ScalarDoc?
    ensures Run(m, ItemEvents(items) + [e], strtod) == Failed(m.tree)
  {
    hide Run, Sound, Events;
    FirstEvent(items.head);
    if m.key.Some? {
      KeyRefused(m, ItemEvents(items) + [e], strtod);
    } else if items.head.Sequence? {
      RunNext(m, ItemEvents(items) + [e], strtod);
    } else {
      var more := ItemEvents(items.tail) + [e];
      assert ItemEvents(items) + [e] == [ScalarEvent(items.head.text, items.head.quoted)] + ([more[0]] + more[1..]) by {
        ScalarFirst(items, e);
      }
      if items.tail.Item? {
        FirstEvent(items.tail.head);
      }
      StrayKey(m, items.head.text, items.head.quoted, more[0], more[1..], strtod);
    }
  }

  lemma ScalarFirst(items: Items, e: Event)
    requires items.Item? && items.head.ScalarDoc?
    ensures ItemEvents(items) + [e]
      == [ScalarEvent(items.head.text, items.head.quoted)] + (ItemEvents(items.tail) + [e])
    ensures ItemEvents(items.tail) + [e] == [(ItemEvents(items.tail) + [e])[0]] + (ItemEvents(items.tail) + [e])[1..]
  {}

  /** A scalar right after an inner sequence, with a container behind it. */
  lemma OddItems(m: Machine, items: Items, e: Event, strtod: Strtod)
    requires AtItems(m) && items.Item? && m.mode == InBlock && m.key.None?
    requires items.head.ScalarDoc? && items.tail.Item? && !items.tail.head.ScalarDoc?
    ensures var d, rest := items.tail.head, items.tail.tail;
      var m1 := m.(key := Some(items.head.text), mode := InBlockContent);
      && Sound(m1) && Placing(m1, d)
      && Run(m, ItemEvents(items) + [e], strtod) == Run(m1, Events(d) + (ItemEvents(rest) + [e]), strtod)
  {
    hide Run, Sound, Events, Placing;
    var d, rest := items.tail.head, items.tail.tail;
    var more := Events(d) + (ItemEvents(rest) + [e]);
    FirstEvent(d);
    assert more == [more[0]] + more[1..];
    StrayKey(m, items.head.text, items.head.quoted, more[0], more[1..], strtod);
    ScalarFirst(items, e);
    assert ItemEvents(items.tail) + [e] == more;
    PlacingContent(m, items.head.text, d);
  }

  /** Reading the elements of an array, with the event that ends it, is performing their script. */
  lemma {:induction false} ItemsRun(m: Machine, items: Items, e: Event, strtod: Strtod)
    requires AtItems(m) && IsEnd(m, e)
    ensures var p := ScriptItems(m.stack[0].at, m.stack[0].index, m.key, m.mode, items, strtod);
      var r := Perform(m.tree, p.tasks);
      Run(m, ItemEvents(items) + [e], strtod) ==
      if r.ok && (e.SequenceEnd? || p.mode == InBlock) then Running(Popped(m, r.tree, p.key)) else Failed(r.tree)
    decreases items
  {
    hide Run, Sound, Events, Perform, ScriptElement, Placing, Place, KeptKey, Placed, Popped;
    PerformOne(m.tree, Halt);
    if items.NoItems? {
      NoTasks(m.tree);
      CloseArray(m, e, strtod);
      assert ItemEvents(items) + [e] == [e];
    } else if m.mode == InBlock && !items.head.Mapping? {
      if m.key.Some? || items.head.Sequence? || items.tail.NoItems? || items.tail.head.ScalarDoc? {
        RefusedItems(m, items, e, strtod);
      } else {
        OddItems(m, items, e, strtod);
        var m1 := m.(key := Some(items.head.text), mode := InBlockContent);
        ItemsStep(m1, items.tail.head, m, items.tail.tail, e, strtod);
      }
    } else {
      assert ItemEvents(items) + [e] == Events(items.head) + (ItemEvents(items.tail) + [e]);
      PlacingItem(m, items.head);
      ItemsStep(m, items.head, m, items.tail, e, strtod);
    }
  }

  lemma PlacingItem(m: Machine, d: Doc)
    requires AtItems(m) && (m.mode == InBlock ==> d.Mapping?)
    ensures Placing(m, d)
  {}

  lemma PlacingContent(m: Machine, text: string, d: Doc)
    requires AtItems(m) && !d.ScalarDoc?
    ensures Placing(m.(key := Some(text), mode := InBlockContent), d)
  {
    hide WellFormed, Chained;
  }

  /** One element, by its own script, and the rest by induction. */
  lemma {:induction false} ItemsStep(m: Machine, d: Doc, m0: Machine, rest: Items, e: Event, strtod: Strtod)
    requires Placing(m, d) && m.tree[m.stack[0].at].Array? && IsEnd(m, e)
    requires m0.stack == m.stack && m0.(tree := m.tree, key := m.key, mode := m.mode) == m
    ensures var p := ScriptElement(m.stack[0].at, m.stack[0].index, m.key, d, strtod);
      var q := Sequel(p, ScriptItems(m.stack[0].at, m.stack[0].index + 1, p.key, ModeAfter(d), rest, strtod));
      var r := Perform(m.tree, q.tasks);
      Run(m, Events(d) + (ItemEvents(rest) + [e]), strtod) ==
      if r.ok && (e.SequenceEnd? || q.mode == InBlock) then Running(Popped(m0, r.tree, q.key)) else Failed(r.tree)
    decreases Item(d, rest), 0
  {
    hide Run, Sound, Events, ItemEvents, Perform, ScriptElement;
    hide ScriptItems, ScriptChild, Place, KeptKey, Placed, Popped;
    ChildRun(m, d, strtod);
    ElementRun(m, d, strtod);
    var p := ScriptElement(m.stack[0].at, m.stack[0].index, m.key, d, strtod);
    var r := Perform(m.tree, p.tasks);
    if r.ok {
      ItemsRun(Placed(m, d, r.tree, p.key), rest, e, strtod);
    }
    ThenItems(m, d, m0, rest, e, strtod);
  }
}
