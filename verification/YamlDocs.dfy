/** YAML documents and their events, the recursive merge into a tree, and runs of the event machine. */
module YamlDocs {

  import opened Basics
  import opened Convert
  import opened ConfigTree
  import opened Yaml

  datatype Doc =
    | ScalarDoc(text: string, quoted: bool)
    | Mapping(pairs: Pairs)
    | Sequence(items: Items)

  datatype Pairs = NoPairs | Pair(key: string, keyQuoted: bool, value: Doc, rest: Pairs)

  datatype Items = NoItems | Item(head: Doc, tail: Items)

  // ----- events of a document

  function Events(d: Doc): seq<Event> {
    match d
    case ScalarDoc(text, quoted) => [ScalarEvent(text, quoted)]
    case Mapping(pairs) => [MappingStart] + PairEvents(pairs) + [MappingEnd]
    case Sequence(items) => [SequenceStart] + ItemEvents(items) + [SequenceEnd]
  }

  function PairEvents(ps: Pairs): seq<Event> {
    match ps
    case NoPairs => []
    case Pair(key, keyQuoted, value, rest) => [ScalarEvent(key, keyQuoted)] + Events(value) + PairEvents(rest)
  }

  function ItemEvents(items: Items): seq<Event> {
    match items
    case NoItems => []
    case Item(head, tail) => Events(head) + ItemEvents(tail)
  }

  /**
   * The documents that the machine can follow: a sequence inside a sequence is the last element or
   * is followed by a mapping, because the end of a sequence always leads to the block state.
   */
  predicate Supported(d: Doc) {
    match d
    case ScalarDoc(_, _) => true
    case Mapping(pairs) => SupportedPairs(pairs)
    case Sequence(items) => SupportedItems(items)
  }

  predicate SupportedPairs(ps: Pairs) {
    match ps
    case NoPairs => true
    case Pair(_, _, value, rest) => Supported(value) && SupportedPairs(rest)
  }

  predicate SupportedItems(items: Items) {
    match items
    case NoItems => true
    case Item(head, tail) =>
      && Supported(head) && SupportedItems(tail)
      && (head.Sequence? ==> tail.NoItems? || tail.head.Mapping?)
  }

  // ----- the merge

  datatype Merged = Merged(ok: bool, tree: Tree)

  /** Writes an entry at c, unless another type is there already or the array is full. */
  function Write(t: Tree, c: Addr, e: Entry): Merged
    requires c != []
  {
    if Admits(t, c, e) then Merged(true, t[c := e]) else Merged(false, t)
  }

  /** Replaces a scalar, merges a mapping, or overlays a sequence from index 0, at child s of a. */
  function MergeChild(t: Tree, a: Addr, s: Seg, d: Doc, strtod: Strtod): Merged
    decreases d
  {
    match d
    case ScalarDoc(text, quoted) =>
      (match Classify(text, quoted, strtod)
       case None => Merged(false, t)
       case Some(v) => Write(t, a + [s], Leaf(v)))
    case Mapping(pairs) =>
      var w := Write(t, a + [s], Dict);
      if !w.ok then w
      else if |a| + 1 >= MAX_DEPTH - 1 then Merged(false, w.tree)
      else MergePairs(w.tree, a + [s], pairs, strtod)
    case Sequence(items) =>
      var w := Write(t, a + [s], Array);
      if !w.ok then w
      else if |a| + 1 >= MAX_DEPTH - 1 then Merged(false, w.tree)
      else MergeItems(w.tree, a + [s], 0, items, strtod)
  }

  function MergePairs(t: Tree, a: Addr, ps: Pairs, strtod: Strtod): Merged
    decreases ps
  {
    match ps
    case NoPairs => Merged(true, t)
    case Pair(key, _, value, rest) =>
      var r := MergeChild(t, a, Key(key), value, strtod);
      if r.ok then MergePairs(r.tree, a, rest, strtod) else r
  }

  function MergeItems(t: Tree, a: Addr, i: nat, items: Items, strtod: Strtod): Merged
    decreases items
  {
    match items
    case NoItems => Merged(true, t)
    case Item(head, tail) =>
      var r := MergeChild(t, a, Idx(i), head, strtod);
      if r.ok then MergeItems(r.tree, a, i + 1, tail, strtod) else r
  }

  // ----- runs of the machine

  function Run(m: Machine, es: seq<Event>, strtod: Strtod): (r: Outcome)
    requires Sound(m)
    ensures StepsTo(m, r)
    decreases |es|
  {
    if es == [] then Running(m)
    else
      StepKeeps(m, es[0], strtod);
      match Step(m, es[0], strtod)
      case Failed(t) => Failed(t)
      case Running(m') => Run(m', es[1..], strtod)
  }

  function Then(r: Outcome, es: seq<Event>, strtod: Strtod): Outcome
    requires r.Running? ==> Sound(r.m)
  {
    match r
    case Failed(t) => Failed(t)
    case Running(m) => Run(m, es, strtod)
  }

  lemma {:induction false} RunConcat(m: Machine, es: seq<Event>, es': seq<Event>, strtod: Strtod)
    requires Sound(m)
    ensures Run(m, es + es', strtod) == Then(Run(m, es, strtod), es', strtod)
    decreases |es|
  {
    if es == [] {
      assert es + es' == es';
    } else {
      StepKeeps(m, es[0], strtod);
      assert (es + es')[0] == es[0] && (es + es')[1..] == es[1..] + es';
      match Step(m, es[0], strtod) {
        case Failed(_) =>
        case Running(m') => RunConcat(m', es[1..], es', strtod);
      }
    }
  }

  lemma ReadyMachine(m: Machine)
    requires Sound(m)
    ensures OnTree(m)
  {}

  lemma RunNext(m: Machine, es: seq<Event>, strtod: Strtod)
    requires Sound(m)
    ensures es == [] ==> Run(m, es, strtod) == Running(m)
    ensures OnTree(m)
    ensures es != [] ==> (match Step(m, es[0], strtod)
                          case Failed(t) => Run(m, es, strtod) == Failed(t)
                          case Running(m') => Sound(m') && Run(m, es, strtod) == Run(m', es[1..], strtod))
  {
    hide Step, Sound;
    ReadyMachine(m);
    if es != [] {
      StepKeeps(m, es[0], strtod);
    }
  }

  lemma RunOne(m: Machine, e: Event, strtod: Strtod)
    requires Sound(m)
    ensures OnTree(m) && Run(m, [e], strtod) == Step(m, e, strtod)
  {
    StepKeeps(m, e, strtod);
    assert [e][1..] == [];
  }

  function Container(d: Doc): Entry
    requires !d.ScalarDoc?
  {
    if d.Sequence? then Array else Dict
  }

  function StartEvent(d: Doc): Event
    requires !d.ScalarDoc?
  {
    if d.Sequence? then SequenceStart else MappingStart
  }

  lemma FirstEvent(d: Doc)
    ensures Events(d) != []
    ensures Events(d)[0] == if d.ScalarDoc? then ScalarEvent(d.text, d.quoted) else StartEvent(d)
  {}

  lemma RunEnclosed(m: Machine, e: Event, es: seq<Event>, e': Event, strtod: Strtod)
    requires Sound(m)
    ensures Run(m, [e] + es + [e'], strtod) == Then(Then(Run(m, [e], strtod), es, strtod), [e'], strtod)
  {
    RunConcat(m, [e] + es, [e'], strtod);
    RunConcat(m, [e], es, strtod);
  }

  lemma StepsExtend(m: Machine, r: Outcome)
    requires StepsTo(m, r)
    ensures r.Running? ==> Sound(r.m) && Extends(m.tree, r.m.tree)
  {}

  // ----- whole streams

  /** A document whose root is a mapping; the machine takes no other. */
  function DocumentEvents(ps: Pairs): seq<Event> {
    [DocumentStart] + ([MappingStart] + PairEvents(ps) + [MappingEnd]) + [DocumentEnd]
  }

  function DocumentsEvents(docs: seq<Pairs>): seq<Event> {
    if docs == [] then [] else DocumentEvents(docs[0]) + DocumentsEvents(docs[1..])
  }

  function StreamEvents(docs: seq<Pairs>): seq<Event> {
    [StreamStart] + DocumentsEvents(docs) + [StreamEnd]
  }

  /** Merging the documents one after the other, as long as this succeeds. */
  function MergeAll(t: Tree, docs: seq<Pairs>, strtod: Strtod): Merged
    decreases |docs|
  {
    if docs == [] then Merged(true, t)
    else
      var r := MergePairs(t, [], docs[0], strtod);
      if r.ok then MergeAll(r.tree, docs[1..], strtod) else r
  }

  ghost predicate DictRoot(t: Tree) {
    WellFormed(t) && t[[]].Dict?
  }

  lemma StepsGrow(m: Machine, r: Outcome)
    requires StepsTo(m, r)
    ensures Grows(m.tree, if r.Running? then r.m.tree else r.tree)
  {}

  /** The result of `sconf_yaml_read` on the events of a file; running out of events is a parse error. */
  function Read(t: Tree, es: seq<Event>, strtod: Strtod): Merged
    requires WellFormed(t)
  {
    match Run(Machine(AtStart, None, [], t), es, strtod)
    case Running(m) => Merged(m.mode == AtStop, m.tree)
    case Failed(t') => Merged(false, t')
  }
}
