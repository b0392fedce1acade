/**
 * What the machine refuses. An event that has no place where it comes ends the reading: what has been
 * read so far stays written, and nothing behind it counts. The places are given by documents, whole
 * or cut off.
 */
module YamlFaults {

  import opened Basics
  import opened Convert
  import opened ConfigTree
  import opened Yaml
  import opened YamlDocs
  import opened YamlLaws
  import opened YamlScripts
  import opened YamlStreams
  import opened YamlMerge

  // ----- the ends of a stream

  /** Events in front of a stream are refused. */
  lemma StartFault(t: Tree, es: seq<Event>, strtod: Strtod)
    requires WellFormed(t) && (es == [] || !es[0].StreamStart?)
    ensures Read(t, es, strtod) == Merged(false, t)
  {
    hide Run;
    RunNext(Machine(AtStart, None, [], t), es, strtod);
  }

  lemma {:induction false} StoppedRun(m: Machine, es: seq<Event>, strtod: Strtod)
    requires Sound(m) && m.mode == AtStop
    ensures Run(m, es, strtod) == Running(m)
    decreases |es|
  {
    hide Run, Sound;
    RunNext(m, es, strtod);
    if es != [] {
      StoppedRun(m, es[1..], strtod);
    }
  }

  /** Once a stream has ended, nothing behind it counts. */
  lemma StopsAtEnd(t: Tree, es: seq<Event>, rest: seq<Event>, strtod: Strtod)
    requires WellFormed(t) && Read(t, es, strtod).ok
    ensures Read(t, es + rest, strtod) == Read(t, es, strtod)
  {
    hide Run;
    var m := Machine(AtStart, None, [], t);
    RunConcat(m, es, rest, strtod);
    StoppedRun(Run(m, es, strtod).m, rest, strtod);
  }

  lemma {:induction false} NeverStops(m: Machine, es: seq<Event>, strtod: Strtod)
    requires Sound(m) && m.mode != AtStop && StreamEnd !in es
    ensures Run(m, es, strtod).Running? ==> Run(m, es, strtod).m.mode != AtStop
    decreases |es|
  {
    hide Run, Sound, ParentAdd, NodeAdd, Push;
    RunNext(m, es, strtod);
    if es != [] && Step(m, es[0], strtod).Running? {
      StepGoesOn(m, es[0], strtod);
      NeverStops(Step(m, es[0], strtod).m, es[1..], strtod);
    }
  }

  lemma StepGoesOn(m: Machine, e: Event, strtod: Strtod)
    requires Sound(m) && m.mode != AtStop && !e.StreamEnd?
    ensures OnTree(m) && (Step(m, e, strtod).Running? ==> Step(m, e, strtod).m.mode != AtStop)
  {
    hide Put, Classify;
    ReadyMachine(m);
  }

  /** A file whose events run out before the end of the stream is not read. */
  lemma Truncated(t: Tree, es: seq<Event>, strtod: Strtod)
    requires WellFormed(t) && StreamEnd !in es
    ensures !Read(t, es, strtod).ok
  {
    hide Run;
    NeverStops(Machine(AtStart, None, [], t), es, strtod);
  }

  // ----- between documents, and at the start of one

  /** The machine after some documents. */
  lemma AfterDocuments(t: Tree, docs: seq<Pairs>, es: seq<Event>, strtod: Strtod)
    requires WellFormed(t)
    ensures var p := ScriptAll(t[[]], None, docs, strtod);
      var r := Perform(t, p.tasks);
      var run := Run(Machine(AtStart, None, [], t), [StreamStart] + DocumentsEvents(docs) + es, strtod);
      && WellFormed(r.tree) && Sound(BetweenWith(r.tree, p.key))
      && run == if r.ok then Run(BetweenWith(r.tree, p.key), es, strtod) else Failed(r.tree)
  {
    hide Run, Perform, ScriptAll, DocumentsEvents, Sound;
    var m := Machine(AtStart, None, [], t);
    DocumentsRun(t, None, docs, strtod);
    assert Sound(m) by { FreshMachine(t); }
    RunConcat(m, [StreamStart] + DocumentsEvents(docs), es, strtod);
    RunConcat(m, [StreamStart], DocumentsEvents(docs), strtod);
    RunOne(m, StreamStart, strtod);
    var p := ScriptAll(t[[]], None, docs, strtod);
    DocumentOpens(Perform(t, p.tasks).tree, p.key, strtod);
  }

  lemma FreshMachine(t: Tree)
    requires WellFormed(t)
    ensures Sound(Machine(AtStart, None, [], t))
  {}

  /** Between documents, everything but another document and the end of the stream is refused. */
  lemma StreamFault(t: Tree, docs: seq<Pairs>, e: Event, rest: seq<Event>, strtod: Strtod)
    requires WellFormed(t) && !e.DocumentStart? && !e.StreamEnd?
    ensures Read(t, [StreamStart] + DocumentsEvents(docs) + ([e] + rest), strtod)
      == Merged(false, Perform(t, StreamPlan(t[[]], docs, strtod)).tree)
  {
    hide Run, Perform, ScriptAll, DocumentsEvents;
    AfterDocuments(t, docs, [e] + rest, strtod);
    var p := ScriptAll(t[[]], None, docs, strtod);
    RunNext(BetweenWith(Perform(t, p.tasks).tree, p.key), [e] + rest, strtod);
  }

  /** At the start of a document, everything but a mapping and its end is refused. */
  lemma DocumentFault(t: Tree, docs: seq<Pairs>, e: Event, rest: seq<Event>, strtod: Strtod)
    requires WellFormed(t) && !e.MappingStart? && !e.DocumentEnd?
    ensures Read(t, [StreamStart] + DocumentsEvents(docs) + ([DocumentStart] + ([e] + rest)), strtod)
      == Merged(false, Perform(t, StreamPlan(t[[]], docs, strtod)).tree)
  {
    hide Run, Perform, ScriptAll, DocumentsEvents;
    AfterDocuments(t, docs, [DocumentStart] + ([e] + rest), strtod);
    var p := ScriptAll(t[[]], None, docs, strtod);
    var m := BetweenWith(Perform(t, p.tasks).tree, p.key);
    DocumentOpens(m.tree, p.key, strtod);
    RunConcat(m, [DocumentStart], [e] + rest, strtod);
    RunNext(m.(mode := InDocument), [e] + rest, strtod);
  }

  /** So a document that is a scalar or a sequence is refused, whatever comes before and after it. */
  lemma NoMapping(t: Tree, docs: seq<Pairs>, d: Doc, rest: seq<Event>, strtod: Strtod)
    requires WellFormed(t) && !d.Mapping?
    ensures Read(t, [StreamStart] + DocumentsEvents(docs) + ([DocumentStart] + (Events(d) + rest)), strtod)
      == Merged(false, Perform(t, StreamPlan(t[[]], docs, strtod)).tree)
  {
    hide Read, Perform, StreamPlan, DocumentsEvents, Events;
    FirstEvent(d);
    assert Events(d) + rest == [Events(d)[0]] + (Events(d)[1..] + rest);
    DocumentFault(t, docs, Events(d)[0], Events(d)[1..] + rest, strtod);
  }

  /** A document without any node is read, and is nothing. */
  lemma BareDocument(t: Tree, docs: seq<Pairs>, rest: seq<Event>, strtod: Strtod)
    requires WellFormed(t)
    ensures Read(t, [StreamStart] + DocumentsEvents(docs) + ([DocumentStart, DocumentEnd] + rest), strtod)
      == Read(t, [StreamStart] + DocumentsEvents(docs) + rest, strtod)
  {
    hide Run, Perform, ScriptAll, DocumentsEvents;
    AfterDocuments(t, docs, [DocumentStart, DocumentEnd] + rest, strtod);
    AfterDocuments(t, docs, rest, strtod);
    var p := ScriptAll(t[[]], None, docs, strtod);
    var m := BetweenWith(Perform(t, p.tasks).tree, p.key);
    DocumentOpens(m.tree, p.key, strtod);
    assert [DocumentStart, DocumentEnd] + rest == [DocumentStart] + ([DocumentEnd] + rest);
    RunConcat(m, [DocumentStart], [DocumentEnd] + rest, strtod);
    RunConcat(m.(mode := InDocument), [DocumentEnd], rest, strtod);
    RunOne(m.(mode := InDocument), DocumentEnd, strtod);
  }

  // ----- inside a document

  /**
   * A mapping or a sequence that is cut off: in a mapping, before a key or its end, after a key, or
   * inside a value; in a sequence, before an element or its end, or inside an element.
   */
  datatype Cut =
    | InPairs(done: Pairs)
    | AfterKey(done: Pairs, key: string, keyQuoted: bool)
    | InValue(done: Pairs, key: string, keyQuoted: bool, inner: Cut)
    | InItems(items: Items)
    | InElement(items: Items, inner: Cut)
  {
    predicate OfMapping() {
      InPairs? || AfterKey? || InValue?
    }
  }

  function ContentEvents(cut: Cut): seq<Event>
    decreases cut, 0
  {
    match cut
    case InPairs(done) => PairEvents(done)
    case AfterKey(done, key, keyQuoted) => PairEvents(done) + [ScalarEvent(key, keyQuoted)]
    case InValue(done, key, keyQuoted, inner) => PairEvents(done) + ([ScalarEvent(key, keyQuoted)] + CutEvents(inner))
    case InItems(items) => ItemEvents(items)
    case InElement(items, inner) => ItemEvents(items) + CutEvents(inner)
  }

  function CutEvents(cut: Cut): seq<Event>
    decreases cut, 1
  {
    [if cut.OfMapping() then MappingStart else SequenceStart] + ContentEvents(cut)
  }

  /** What has been written when a cut-off part ends. */
  function ContentPlan(a: Addr, cut: Cut, strtod: Strtod): seq<Task>
    decreases cut, 0
  {
    match cut
    case InPairs(done) => PlanPairs(a, done, strtod)
    case AfterKey(done, _, _) => PlanPairs(a, done, strtod)
    case InValue(done, key, _, inner) => PlanPairs(a, done, strtod) + CutPlan(a + [Key(key)], inner, strtod)
    case InItems(items) => PlanItems(a, 0, items, strtod)
    case InElement(items, inner) => PlanItems(a, 0, items, strtod) + CutPlan(a + [Idx(Count(items))], inner, strtod)
  }

  function CutPlan(c: Addr, cut: Cut, strtod: Strtod): seq<Task>
    decreases cut, 1
  {
    [Store(c, if cut.OfMapping() then Dict else Array)]
    + if |c| >= MAX_DEPTH - 1 then [Halt] else ContentPlan(c, cut, strtod)
  }

  function Count(items: Items): nat {
    match items
    case NoItems => 0
    case Item(_, tail) => 1 + Count(tail)
  }

  /** Whether the last element is a sequence. */
  predicate EndsInSequence(items: Items) {
    items.Item? && if items.tail.NoItems? then items.head.Sequence? else EndsInSequence(items.tail)
  }

  predicate SupportedCut(cut: Cut) {
    match cut
    case InPairs(done) => SupportedPairs(done)
    case AfterKey(done, _, _) => SupportedPairs(done)
    case InValue(done, _, _, inner) => SupportedPairs(done) && SupportedCut(inner)
    case InItems(items) => SupportedItems(items)
    case InElement(items, inner) =>
      SupportedItems(items) && SupportedCut(inner) && (EndsInSequence(items) ==> inner.OfMapping())
  }

  /**
   * The events that have no place where a document is cut off. Where a key can come, the code does not
   * mind the end of a sequence or of the document, and neither where an inner sequence has just ended.
   */
  predicate Misplaced(cut: Cut, e: Event) {
    match cut
    case InPairs(_) => !e.ScalarEvent? && !e.MappingEnd? && !e.SequenceEnd? && !e.DocumentEnd?
    case AfterKey(_, _, _) => !e.ScalarEvent? && !e.MappingStart? && !e.SequenceStart?
    case InValue(_, _, _, inner) => Misplaced(inner, e)
    case InItems(items) =>
      if EndsInSequence(items)
      then !e.ScalarEvent? && !e.MappingStart? && !e.MappingEnd? && !e.SequenceEnd? && !e.DocumentEnd?
      else !e.ScalarEvent? && !e.MappingStart? && !e.SequenceStart? && !e.SequenceEnd?
    case InElement(_, inner) => Misplaced(inner, e)
  }

  // ----- elements up to a cut

  function ModePast(mode: Mode, items: Items): Mode {
    if items.NoItems? then mode else if EndsInSequence(items) then InBlock else InSequence
  }

  /** The machine behind some elements. */
  ghost function Past(m: Machine, items: Items, t: Tree): Machine
    requires m.stack != []
  {
    m.(tree := t, mode := ModePast(m.mode, items),
       stack := [m.stack[0].(index := m.stack[0].index + Count(items))] + m.stack[1..])
  }

  lemma PastNext(m: Machine, d: Doc, rest: Items, t: Tree, t': Tree)
    requires m.stack != [] && m.stack[0].at in m.tree && m.tree[m.stack[0].at].Array? && m.key.None?
    ensures Past(Placed(m, d, t, None), rest, t') == Past(m, Item(d, rest), t')
  {}

  /** One element, without a key. */
  lemma ElementBefore(m: Machine, d: Doc, strtod: Strtod)
    requires AtItems(m) && m.key.None? && Supported(d) && (m.mode == InBlock ==> d.Mapping?)
    ensures var r := Perform(m.tree, PlanChild(m.stack[0].at, Idx(m.stack[0].index), d, strtod));
      var m1 := Placed(m, d, r.tree, None);
      && Does(Run(m, Events(d), strtod), r, m1)
      && (r.ok ==>
            && AtItems(m1) && m1.tree == r.tree && m1.key == None && m1.mode == ModeAfter(d) && m1.stack != []
            && m1.stack[0] == Frame(m.stack[0].at, m.stack[0].index + 1))
  {
    hide Run, Sound, Events, Perform, ScriptChild, PlanChild, Placing, Place, KeptKey, Placed;
    PlacingItem(m, d);
    ChildRun(m, d, strtod);
    ElementRun(m, d, strtod);
    SupportedChildIsPlan(m.stack[0].at, Idx(m.stack[0].index), d, strtod);
    PlainElement(m, d, strtod);
  }

  lemma {:induction false} ItemsBefore(m: Machine, items: Items, strtod: Strtod)
    requires AtItems(m) && m.key.None? && SupportedItems(items)
    requires m.mode == InBlock && items.Item? ==> items.head.Mapping?
    ensures var r := Perform(m.tree, PlanItems(m.stack[0].at, m.stack[0].index, items, strtod));
      && Does(Run(m, ItemEvents(items), strtod), r, Past(m, items, r.tree))
      && (r.ok ==> AtItems(Past(m, items, r.tree)))
    decreases items
  {
    hide Run, Sound, Events, Perform, PlanChild, Placed, Past;
    if items.NoItems? {
      NoTasks(m.tree);
      NoItemsRun(m, strtod);
      PastNothing(m);
    } else {
      var a, i := m.stack[0].at, m.stack[0].index;
      var first := PlanChild(a, Idx(i), items.head, strtod);
      ElementBefore(m, items.head, strtod);
      RunConcat(m, Events(items.head), ItemEvents(items.tail), strtod);
      PerformConcat(m.tree, first, PlanItems(a, i + 1, items.tail, strtod));
      var r := Perform(m.tree, first);
      if r.ok {
        ItemsBefore(Placed(m, items.head, r.tree, None), items.tail, strtod);
        PastNext(m, items.head, items.tail, r.tree,
          Perform(r.tree, PlanItems(a, i + 1, items.tail, strtod)).tree);
      }
    }
  }

  lemma NoItemsRun(m: Machine, strtod: Strtod)
    requires Sound(m)
    ensures ItemEvents(NoItems) == [] && Run(m, [], strtod) == Running(m)
  {
    RunNext(m, [], strtod);
  }

  lemma PastNothing(m: Machine)
    requires m.stack != []
    ensures Past(m, NoItems, m.tree) == m
  {
    assert [m.stack[0]] + m.stack[1..] == m.stack;
  }

  /** Without a key, an element goes to the next index. */
  lemma PlainElement(m: Machine, d: Doc, strtod: Strtod)
    requires AtItems(m) && m.key.None?
    ensures var a, i := m.stack[0].at, m.stack[0].index;
      ScriptElement(a, i, m.key, d, strtod) == ScriptChild(a + [Idx(i)], None, d, strtod)
  {
    hide ScriptChild;
  }

  // ----- faults

  /** The kind of node that has been cut off. */
  function Kind(cut: Cut): Doc {
    if cut.OfMapping() then Mapping(NoPairs) else Sequence(NoItems)
  }

  ghost predicate AtContent(m: Machine, cut: Cut) {
    && m.key.None?
    && if cut.OfMapping() then AtPairs(m) else AtItems(m) && m.mode == InSequence && m.stack[0].index == 0
  }

  /** The event at the place of the cut. */
  lemma MisplacedStep(m: Machine, cut: Cut, e: Event, strtod: Strtod)
    requires Misplaced(cut, e)
    requires match cut
      case InPairs(_) => AtPairs(m) && m.key.None?
      case AfterKey(_, _, _) => Sound(m) && m.mode == InBlockContent
      case InItems(items) =>
        AtItems(m) && m.key.None? && m.mode == (if EndsInSequence(items) then InBlock else InSequence)
      case _ => false
    ensures OnTree(m) && Step(m, e, strtod) == Failed(m.tree)
  {
    hide Put, Classify, Chained, Live, EndsInSequence;
    ReadyMachine(m);
  }

  lemma FaultNext(m: Machine, cut: Cut, e: Event, rest: seq<Event>, strtod: Strtod)
    requires Sound(m) && OnTree(m) && Step(m, e, strtod) == Failed(m.tree)
    ensures Run(m, [e] + rest, strtod) == Failed(m.tree)
  {
    hide Step, Sound;
    RunNext(m, [e] + rest, strtod);
  }

  lemma KeyStep(m: Machine, key: string, keyQuoted: bool, es: seq<Event>, strtod: Strtod)
    requires AtPairs(m) && m.key.None?
    ensures var m1 := m.(key := Some(key), mode := InBlockContent);
      && Sound(m1) && Run(m, [ScalarEvent(key, keyQuoted)] + es, strtod) == Run(m1, es, strtod)
      && (forall d :: Placing(m1, d)) && Place(m1) == Some(Key(key)) && KeptKey(m1) == None
  {
    hide Run, Chained, Live;
    RunOne(m, ScalarEvent(key, keyQuoted), strtod);
    RunConcat(m, [ScalarEvent(key, keyQuoted)], es, strtod);
  }

  /** The pairs before a cut. */
  lemma PairsBefore(m: Machine, done: Pairs, es: seq<Event>, strtod: Strtod)
    requires AtPairs(m) && m.key.None? && SupportedPairs(done)
    ensures var r := Perform(m.tree, PlanPairs(m.stack[0].at, done, strtod));
      var m1 := m.(tree := r.tree);
      && (r.ok ==> AtPairs(m1))
      && Run(m, PairEvents(done) + es, strtod) == if r.ok then Run(m1, es, strtod) else Failed(r.tree)
  {
    hide Run, Sound, Perform, ScriptPairs, PlanPairs, PairEvents, SupportedPairs;
    var a := m.stack[0].at;
    PairsRun(m, done, strtod);
    SupportedPairsArePlan(a, done, strtod);
    RunConcat(m, PairEvents(done), es, strtod);
    var r := Perform(m.tree, PlanPairs(a, done, strtod));
    if r.ok {
      StepsExtend(m, Run(m, PairEvents(done), strtod));
      assert TypeOf(r.tree[a]) == TypeOf(m.tree[a]);
      assert m.(tree := r.tree, key := None) == m.(tree := r.tree);
    }
  }

  /** The elements before a cut. */
  lemma ElementsBefore(m: Machine, items: Items, es: seq<Event>, strtod: Strtod)
    requires AtItems(m) && m.key.None? && m.mode == InSequence && SupportedItems(items)
    ensures var r := Perform(m.tree, PlanItems(m.stack[0].at, m.stack[0].index, items, strtod));
      var m1 := Past(m, items, r.tree);
      && (r.ok ==> AtItems(m1))
      && Run(m, ItemEvents(items) + es, strtod) == if r.ok then Run(m1, es, strtod) else Failed(r.tree)
  {
    hide Run, Sound, Perform, PlanItems, ItemEvents, SupportedItems, Past;
    ItemsBefore(m, items, strtod);
    RunConcat(m, ItemEvents(items), es, strtod);
  }

  /** What a cut-off mapping or sequence and a misplaced event come to, inside their container. */
  lemma {:induction false} ContentFault(m: Machine, cut: Cut, e: Event, rest: seq<Event>, strtod: Strtod)
    requires AtContent(m, cut) && SupportedCut(cut) && Misplaced(cut, e)
    ensures Run(m, ContentEvents(cut) + ([e] + rest), strtod)
      == Failed(Perform(m.tree, ContentPlan(m.stack[0].at, cut, strtod)).tree)
    decreases cut, 0
  {
    if cut.OfMapping() {
      MappingFault(m, cut, e, rest, strtod);
    } else {
      SequenceFault(m, cut, e, rest, strtod);
    }
  }

  lemma {:induction false} MappingFault(m: Machine, cut: Cut, e: Event, rest: seq<Event>, strtod: Strtod)
    requires AtContent(m, cut) && cut.OfMapping() && SupportedCut(cut) && Misplaced(cut, e)
    ensures Run(m, ContentEvents(cut) + ([e] + rest), strtod)
      == Failed(Perform(m.tree, ContentPlan(m.stack[0].at, cut, strtod)).tree)
    decreases cut, 0, 1
  {
    hide Run, Sound, Perform, PlanPairs, PairEvents, SupportedPairs, CutEvents, CutPlan, Placing, Place, KeptKey;
    var a := m.stack[0].at;
    var key := if cut.InPairs? then [] else [ScalarEvent(cut.key, cut.keyQuoted)];
    var behind := key + if cut.InValue? then CutEvents(cut.inner) else [];
    var es := behind + ([e] + rest);
    assert ContentEvents(cut) + ([e] + rest) == PairEvents(cut.done) + es;
    PairsBefore(m, cut.done, es, strtod);
    var r := Perform(m.tree, PlanPairs(a, cut.done, strtod));
    if r.ok {
      PairsFault(m.(tree := r.tree), cut, e, rest, strtod);
    }
    PerformConcat(m.tree, PlanPairs(a, cut.done, strtod),
      if cut.InValue? then CutPlan(a + [Key(cut.key)], cut.inner, strtod) else []);
    NoTasks(r.tree);
  }

  lemma {:induction false} SequenceFault(m: Machine, cut: Cut, e: Event, rest: seq<Event>, strtod: Strtod)
    requires AtContent(m, cut) && !cut.OfMapping() && SupportedCut(cut) && Misplaced(cut, e)
    ensures Run(m, ContentEvents(cut) + ([e] + rest), strtod)
      == Failed(Perform(m.tree, ContentPlan(m.stack[0].at, cut, strtod)).tree)
    decreases cut, 0, 1
  {
    hide Run, Sound, Perform, PlanItems, ItemEvents, SupportedItems, CutEvents, CutPlan, Past;
    var a := m.stack[0].at;
    var es := (if cut.InElement? then CutEvents(cut.inner) else []) + ([e] + rest);
    assert ContentEvents(cut) + ([e] + rest) == ItemEvents(cut.items) + es;
    ElementsBefore(m, cut.items, es, strtod);
    var r := Perform(m.tree, PlanItems(a, 0, cut.items, strtod));
    if r.ok {
      ItemsFault(m, r.tree, cut, e, rest, strtod);
    }
    PerformConcat(m.tree, PlanItems(a, 0, cut.items, strtod),
      if cut.InElement? then CutPlan(a + [Idx(Count(cut.items))], cut.inner, strtod) else []);
    NoTasks(r.tree);
  }

  /** Past the complete pairs of a cut-off mapping. */
  lemma {:induction false} PairsFault(m: Machine, cut: Cut, e: Event, rest: seq<Event>, strtod: Strtod)
    requires AtPairs(m) && m.key.None? && cut.OfMapping() && SupportedCut(cut) && Misplaced(cut, e)
    ensures var key := if cut.InPairs? then [] else [ScalarEvent(cut.key, cut.keyQuoted)];
      Run(m, key + (if cut.InValue? then CutEvents(cut.inner) else []) + ([e] + rest), strtod) ==
      Failed(if cut.InValue?
             then Perform(m.tree, CutPlan(m.stack[0].at + [Key(cut.key)], cut.inner, strtod)).tree else m.tree)
    decreases cut, 0, 0
  {
    hide Run, Sound, Perform, CutEvents, CutPlan, Placing, Place, KeptKey;
    if cut.InPairs? {
      MisplacedStep(m, cut, e, strtod);
      FaultNext(m, cut, e, rest, strtod);
      assert [] + [] + ([e] + rest) == [e] + rest;
    } else {
      var key := [ScalarEvent(cut.key, cut.keyQuoted)];
      var es := (if cut.InValue? then CutEvents(cut.inner) else []) + ([e] + rest);
      var m1 := m.(key := Some(cut.key), mode := InBlockContent);
      KeyStep(m, cut.key, cut.keyQuoted, es, strtod);
      assert (key + if cut.InValue? then CutEvents(cut.inner) else []) + ([e] + rest) == key + es;
      if cut.AfterKey? {
        MisplacedStep(m1, cut, e, strtod);
        FaultNext(m1, cut, e, rest, strtod);
        assert es == [e] + rest;
      } else {
        CutRun(m1, cut.inner, Key(cut.key), e, rest, strtod);
      }
    }
  }

  /** Past the complete elements of a cut-off sequence. */
  lemma {:induction false} ItemsFault(m: Machine, t: Tree, cut: Cut, e: Event, rest: seq<Event>, strtod: Strtod)
    requires AtContent(m, cut) && !cut.OfMapping() && SupportedCut(cut) && Misplaced(cut, e)
    requires AtItems(Past(m, cut.items, t))
    ensures var m1 := Past(m, cut.items, t);
      Run(m1, (if cut.InElement? then CutEvents(cut.inner) else []) + ([e] + rest), strtod) ==
      Failed(if cut.InElement?
             then Perform(t, CutPlan(m.stack[0].at + [Idx(Count(cut.items))], cut.inner, strtod)).tree else t)
    decreases cut, 0, 0
  {
    hide Run, Sound, Perform, CutEvents, CutPlan, Placing, Place, KeptKey, SupportedItems;
    var m1 := Past(m, cut.items, t);
    if cut.InItems? {
      MisplacedStep(m1, cut, e, strtod);
      FaultNext(m1, cut, e, rest, strtod);
      assert [] + ([e] + rest) == [e] + rest;
    } else {
      assert Placing(m1, Kind(cut.inner)) by { PlacingItem(m1, Kind(cut.inner)); }
      assert Place(m1) == Some(Idx(m1.stack[0].index)) && KeptKey(m1) == None by { PlainPlace(m1); }
      CutRun(m1, cut.inner, Idx(Count(cut.items)), e, rest, strtod);
    }
  }

  lemma PlainPlace(m: Machine)
    requires AtItems(m) && m.key.None?
    ensures Place(m) == Some(Idx(m.stack[0].index)) && KeptKey(m) == None
  {}

  /** Into a container. */
  lemma IntoContainer(m: Machine, cut: Cut, s: Seg, es: seq<Event>, strtod: Strtod)
    requires Placing(m, Kind(cut)) && Place(m) == Some(s) && KeptKey(m) == None
    ensures var d, c := Kind(cut), m.stack[0].at + [s];
      var w := Write(m.tree, c, Container(d));
      var m1 := Inside(m, d, Frame(c, 0), ModeInside(d), w.tree, None);
      && |c| == |m.stack|
      && (w.ok && |c| < MAX_DEPTH - 1 ==> AtContent(m1, cut) && m1.tree == w.tree && m1.stack[0].at == c)
      && Run(m, [StartEvent(d)] + es, strtod) ==
           if w.ok && |c| < MAX_DEPTH - 1 then Run(m1, es, strtod) else Failed(w.tree)
  {
    hide Run, Sound, Place, KeptKey, Write, Inside;
    var d := Kind(cut);
    PlacingDepth(m, d);
    var c := m.stack[0].at + [s];
    OpenRun(m, d, strtod);
    RunConcat(m, [StartEvent(d)], es, strtod);
    var w := Write(m.tree, c, Container(d));
    if w.ok && |m.stack| < MAX_DEPTH - 1 {
      InsideFacts(m, d, strtod);
      InsideMode(m, d, Frame(c, 0), w.tree);
    }
  }

  /** The same for the container and its content. */
  lemma {:induction false} CutRun(m: Machine, cut: Cut, s: Seg, e: Event, rest: seq<Event>, strtod: Strtod)
    requires Placing(m, Kind(cut)) && Place(m) == Some(s) && KeptKey(m) == None
    requires SupportedCut(cut) && Misplaced(cut, e)
    ensures Run(m, CutEvents(cut) + ([e] + rest), strtod)
      == Failed(Perform(m.tree, CutPlan(m.stack[0].at + [s], cut, strtod)).tree)
    decreases cut, 1
  {
    hide Run, Sound, Perform, Place, KeptKey, ContentEvents, ContentPlan, SupportedCut, Misplaced, Write, Inside;
    var d := Kind(cut);
    PlacingDepth(m, d);
    hide Placing;
    var c, content := m.stack[0].at + [s], ContentEvents(cut) + ([e] + rest);
    var w := Write(m.tree, c, Container(d));
    assert CutEvents(cut) + ([e] + rest) == [StartEvent(d)] + content;
    IntoContainer(m, cut, s, content, strtod);
    PerformConcat(m.tree, [Store(c, Container(d))],
      if |c| >= MAX_DEPTH - 1 then [Halt] else ContentPlan(c, cut, strtod));
    PerformOne(m.tree, Store(c, Container(d)));
    PerformOne(w.tree, Halt);
    if w.ok && |c| < MAX_DEPTH - 1 {
      ContentFault(Inside(m, d, Frame(c, 0), ModeInside(d), w.tree, None), cut, e, rest, strtod);
    }
  }

  lemma PlacingDepth(m: Machine, d: Doc)
    requires Placing(m, d)
    ensures Sound(m) && m.stack != [] && |m.stack| == |m.stack[0].at| + 1 && m.stack[0].at in m.tree
  {}

  lemma InsideMode(m: Machine, d: Doc, f: Frame, t: Tree)
    requires m.stack != [] && m.stack[0].at in m.tree
    ensures Inside(m, d, f, ModeInside(d), t, KeptKey(m)).mode == ModeInside(d)
  {}

  /**
   * A misplaced event anywhere in a document ends the reading: the documents before it have been read,
   * and so has its own document up to this event. Whatever follows does not count.
   */
  lemma MisplacedEvent(t: Tree, docs: seq<Pairs>, cut: Cut, e: Event, rest: seq<Event>, strtod: Strtod)
    requires DictRoot(t) && (forall ps :: ps in docs ==> SupportedPairs(ps))
    requires cut.OfMapping() && SupportedCut(cut) && Misplaced(cut, e)
    ensures Read(t, [StreamStart] + DocumentsEvents(docs) + ([DocumentStart] + (CutEvents(cut) + ([e] + rest))), strtod)
      == Merged(false, Perform(t, PlanAll(docs, strtod) + ContentPlan([], cut, strtod)).tree)
  {
    hide Run, Perform, ScriptAll, DocumentsEvents, PlanAll;
    hide ContentEvents, ContentPlan, Sound, SupportedPairs, Misplaced;
    var content := ContentEvents(cut) + ([e] + rest);
    assert CutEvents(cut) + ([e] + rest) == [MappingStart] + content;
    AfterDocuments(t, docs, [DocumentStart] + ([MappingStart] + content), strtod);
    SupportedStreamIsPlan(docs, strtod);
    var r := Perform(t, PlanAll(docs, strtod));
    PerformConcat(t, PlanAll(docs, strtod), ContentPlan([], cut, strtod));
    if r.ok {
      PerformExtends(t, PlanAll(docs, strtod));
      RootType(t, r.tree);
      MappingFaultAtRoot(r.tree, cut, e, rest, strtod);
    }
  }

  lemma MappingFaultAtRoot(t: Tree, cut: Cut, e: Event, rest: seq<Event>, strtod: Strtod)
    requires DictRoot(t) && cut.OfMapping() && SupportedCut(cut) && Misplaced(cut, e)
    ensures var m := BetweenWith(t, None);
      Sound(m) && Run(m, [DocumentStart] + ([MappingStart] + (ContentEvents(cut) + ([e] + rest))), strtod)
      == Failed(Perform(t, ContentPlan([], cut, strtod)).tree)
  {
    hide Run, Perform, ContentEvents, ContentPlan, Sound, SupportedCut, Misplaced;
    var m, content := BetweenWith(t, None), ContentEvents(cut) + ([e] + rest);
    DocumentOpens(t, None, strtod);
    RunConcat(m, [DocumentStart], [MappingStart] + content, strtod);
    RunConcat(m.(mode := InDocument), [MappingStart], content, strtod);
    ContentFault(AtRoot(t, None), cut, e, rest, strtod);
  }

  /** The file "port 8080", with the colon forgotten. */
  lemma ForgottenColon(t: Tree, strtod: Strtod)
    requires WellFormed(t)
    ensures Read(t, [StreamStart, DocumentStart, ScalarEvent("port 8080", false), DocumentEnd, StreamEnd], strtod)
      == Merged(false, t)
  {
    hide Read, StreamPlan;
    var d := ScalarDoc("port 8080", false);
    NoMapping(t, [], d, [DocumentEnd, StreamEnd], strtod);
    assert StreamPlan(t[[]], [], strtod) == [] by { NothingPlanned(t[[]], strtod); }
    NoTasks(t);
    assert [StreamStart] + DocumentsEvents([]) + ([DocumentStart] + (Events(d) + [DocumentEnd, StreamEnd]))
      == [StreamStart, DocumentStart, ScalarEvent("port 8080", false), DocumentEnd, StreamEnd];
  }

  lemma NothingPlanned(root: Entry, strtod: Strtod)
    ensures StreamPlan(root, [], strtod) == []
  {}

  /** At the end of a document, the end of a sequence does as well as that of the mapping, and so does none. */
  lemma LooseEnds(t: Tree, docs: seq<Pairs>, ps: Pairs, end: seq<Event>, strtod: Strtod)
    requires DictRoot(t) && SupportedPairs(ps) && (forall ps :: ps in docs ==> SupportedPairs(ps))
    requires end == [MappingEnd] || end == [SequenceEnd] || end == []
    ensures Read(t, [StreamStart] + DocumentsEvents(docs)
                    + ([DocumentStart] + ([MappingStart] + (PairEvents(ps) + (end + [DocumentEnd, StreamEnd])))),
                 strtod)
      == Perform(t, PlanAll(docs, strtod) + PlanPairs([], ps, strtod))
  {
    hide Run, Perform, ScriptAll, DocumentsEvents, PlanAll, PlanPairs, PairEvents, Sound, SupportedPairs;
    var es := PairEvents(ps) + (end + [DocumentEnd, StreamEnd]);
    AfterDocuments(t, docs, [DocumentStart] + ([MappingStart] + es), strtod);
    SupportedStreamIsPlan(docs, strtod);
    var r := Perform(t, PlanAll(docs, strtod));
    PerformConcat(t, PlanAll(docs, strtod), PlanPairs([], ps, strtod));
    if r.ok {
      PerformExtends(t, PlanAll(docs, strtod));
      RootType(t, r.tree);
      var m, root := BetweenWith(r.tree, None), AtRoot(r.tree, None);
      DocumentOpens(r.tree, None, strtod);
      RunConcat(m, [DocumentStart], [MappingStart] + es, strtod);
      RunConcat(m.(mode := InDocument), [MappingStart], es, strtod);
      PairsBefore(root, ps, end + [DocumentEnd, StreamEnd], strtod);
      var r' := Perform(r.tree, PlanPairs([], ps, strtod));
      if r'.ok {
        EndsRun(root.(tree := r'.tree), end, strtod);
      }
    }
  }

  lemma EndsRun(m: Machine, end: seq<Event>, strtod: Strtod)
    requires AtPairs(m) && m.key.None? && |m.stack| == 1
    requires end == [MappingEnd] || end == [SequenceEnd] || end == []
    ensures var r := Run(m, end + [DocumentEnd, StreamEnd], strtod);
      r.Running? && r.m.mode == AtStop && r.m.tree == m.tree
  {
    hide Run, Sound;
    RunConcat(m, end, [DocumentEnd, StreamEnd], strtod);
    if end == [] {
      RunNext(m, end, strtod);
      DocumentEnds(m, strtod);
    } else {
      RunOne(m, end[0], strtod);
      LastPopped(m, end[0], strtod);
      DocumentEnds(m.(stack := []), strtod);
    }
  }

  lemma LastPopped(m: Machine, e: Event, strtod: Strtod)
    requires Sound(m) && m.mode == InBlock && |m.stack| == 1 && (e.MappingEnd? || e.SequenceEnd?)
    ensures OnTree(m) && Sound(m.(stack := [])) && Step(m, e, strtod) == Running(m.(stack := []))
  {
    hide WellFormed;
    ReadyMachine(m);
  }

  lemma DocumentEnds(m: Machine, strtod: Strtod)
    requires Sound(m) && m.mode == InBlock
    ensures Run(m, [DocumentEnd, StreamEnd], strtod) == Running(m.(mode := AtStop))
  {
    hide Run, WellFormed, Chained, Live;
    assert [DocumentEnd, StreamEnd][1..] == [StreamEnd];
    RunNext(m, [DocumentEnd, StreamEnd], strtod);
    RunOne(m.(mode := InStream), StreamEnd, strtod);
  }
}
