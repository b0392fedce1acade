/** Reading streams of mappings: for every kind of root, and whether it succeeds or not, a list of writes. */
module YamlStreams {

  import opened Basics
  import opened Convert
  import opened ConfigTree
  import opened Yaml
  import opened YamlDocs
  import opened YamlLaws
  import opened YamlScripts

  // ----- documents

  /** The pairs of a mapping, with keys and values as elements of one sequence. */
  function Flatten(ps: Pairs): Items {
    match ps
    case NoPairs => NoItems
    case Pair(key, keyQuoted, value, rest) => Item(ScalarDoc(key, keyQuoted), Item(value, Flatten(rest)))
  }

  lemma {:induction false} FlattenEvents(ps: Pairs)
    ensures ItemEvents(Flatten(ps)) == PairEvents(ps)
    decreases ps
  {
    if ps.Pair? {
      hide Events;
      FlattenEvents(ps.rest);
      KeyEvent(ps.key, ps.keyQuoted);
    }
  }

  lemma KeyEvent(key: string, keyQuoted: bool)
    ensures Events(ScalarDoc(key, keyQuoted)) == [ScalarEvent(key, keyQuoted)]
  {}

  /** A document with its mapping at the root. At an array, keys and values are elements. */
  function ScriptDocument(root: Entry, key: Option<string>, ps: Pairs, strtod: Strtod): Script {
    if ps.NoPairs? then Script([], key, InBlock)
    else if key.Some? || root.Leaf? then Refusal(key)
    else if root.Dict? then ScriptPairs([], None, ps, strtod)
    else if ps.value.ScalarDoc? then Refusal(key)
    else
      var p := ScriptElement([], 0, Some(ps.key), ps.value, strtod);
      var q := Sequel(p, ScriptItems([], 1, p.key, ModeAfter(ps.value), Flatten(ps.rest), strtod));
      if q.mode == InBlock then q else Sequel(q, Refusal(q.key))
  }

  function ScriptAll(root: Entry, key: Option<string>, docs: seq<Pairs>, strtod: Strtod): Script
    decreases |docs|
  {
    if docs == [] then Script([], key, InBlock)
    else
      var p := ScriptDocument(root, key, docs[0], strtod);
      Sequel(p, ScriptAll(root, p.key, docs[1..], strtod))
  }

  /** Between two documents, with or without a pending key. */
  function BetweenWith(t: Tree, key: Option<string>): Machine {
    Machine(InStream, key, [], t)
  }

  /** The machine inside the mapping of a document. */
  ghost function AtRoot(t: Tree, key: Option<string>): Machine {
    Machine(InBlock, key, [Frame([], 0)], t)
  }

  lemma DocumentOpens(t: Tree, key: Option<string>, strtod: Strtod)
    requires WellFormed(t)
    ensures var m := BetweenWith(t, key);
      && Sound(m) && Sound(m.(mode := InDocument)) && Sound(AtRoot(t, key))
      && Run(m, [DocumentStart], strtod) == Running(m.(mode := InDocument))
      && Run(m.(mode := InDocument), [MappingStart], strtod) == Running(AtRoot(t, key))
  {
    hide Run, WellFormed;
    var m := BetweenWith(t, key);
    RunOne(m, DocumentStart, strtod);
    RunOne(m.(mode := InDocument), MappingStart, strtod);
  }

  /** A document reaches the root's block, and what its mapping has done decides the rest. */
  lemma DocumentAround(t: Tree, key: Option<string>, ps: Pairs, strtod: Strtod)
    requires WellFormed(t)
    ensures Sound(BetweenWith(t, key)) && Sound(AtRoot(t, key))
    ensures Run(BetweenWith(t, key), DocumentEvents(ps), strtod) ==
      Then(Then(Run(AtRoot(t, key), PairEvents(ps), strtod), [MappingEnd], strtod), [DocumentEnd], strtod)
  {
    hide Run, PairEvents, Sound, WellFormed;
    var m := BetweenWith(t, key);
    DocumentOpens(t, key, strtod);
    RunEnclosed(m, DocumentStart, [MappingStart] + PairEvents(ps) + [MappingEnd], DocumentEnd, strtod);
    RunEnclosed(m.(mode := InDocument), MappingStart, PairEvents(ps), MappingEnd, strtod);
  }

  /** The end of a document whose mapping has left the root on the stack. */
  lemma DocumentClose(t: Tree, key: Option<string>, f: Frame, strtod: Strtod)
    requires WellFormed(t) && f.at == []
    ensures var m := Machine(InBlock, key, [f], t);
      && Sound(m)
      && Then(Run(m, [MappingEnd], strtod), [DocumentEnd], strtod) == Running(BetweenWith(t, key))
      && Run(m.(mode := InSequence), [MappingEnd], strtod) == Failed(t)
  {
    hide Run;
    var m := Machine(InBlock, key, [f], t);
    RunOne(m, MappingEnd, strtod);
    RunOne(m.(stack := []), DocumentEnd, strtod);
    RunOne(m.(mode := InSequence), MappingEnd, strtod);
  }

  lemma EmptyDocument(t: Tree, key: Option<string>, strtod: Strtod)
    requires WellFormed(t)
    ensures Run(BetweenWith(t, key), DocumentEvents(NoPairs), strtod) == Running(BetweenWith(t, key))
  {
    DocumentAround(t, key, NoPairs, strtod);
    RunNext(AtRoot(t, key), [], strtod);
    DocumentClose(t, key, Frame([], 0), strtod);
  }

  /** A document below a dict root. */
  lemma DictDocument(t: Tree, key: Option<string>, ps: Pairs, strtod: Strtod)
    requires DictRoot(t)
    ensures var p := ScriptPairs([], key, ps, strtod);
      var r := Perform(t, p.tasks);
      && WellFormed(r.tree)
      && Does(Run(BetweenWith(t, key), DocumentEvents(ps), strtod), r, BetweenWith(r.tree, p.key))
  {
    hide Run, Perform, ScriptPairs, PairEvents, Sound;
    var m := AtRoot(t, key);
    DocumentAround(t, key, ps, strtod);
    PairsRun(m, ps, strtod);
    StepsGrow(m, Run(m, PairEvents(ps), strtod));
    var p := ScriptPairs([], key, ps, strtod);
    var r := Perform(t, p.tasks);
    if r.ok {
      DocumentClose(r.tree, p.key, Frame([], 0), strtod);
    }
  }

  lemma PairSplit(ps: Pairs)
    requires ps.Pair?
    ensures PairEvents(ps) == [ScalarEvent(ps.key, ps.keyQuoted)] + (Events(ps.value) + PairEvents(ps.rest))
  {}

  /** The first pair below an array root. */
  lemma FirstPair(t: Tree, ps: Pairs, strtod: Strtod)
    requires WellFormed(t) && t[[]].Array? && ps.Pair?
    ensures var m := AtRoot(t, None).(mode := InBlockContent, key := Some(ps.key));
      var es := PairEvents(ps) + [MappingEnd];
      && Sound(m)
      && (ps.value.ScalarDoc? ==> Run(AtRoot(t, None), es, strtod) == Failed(t))
      && (!ps.value.ScalarDoc? ==>
            && Placing(m, ps.value)
            && Run(AtRoot(t, None), es, strtod)
               == Run(m, Events(ps.value) + (ItemEvents(Flatten(ps.rest)) + [MappingEnd]), strtod))
  {
    hide Run, Events, PairEvents, WellFormed, Flatten, ItemEvents;
    var m0 := AtRoot(t, None);
    DocumentOpens(t, None, strtod);
    var key := ScalarEvent(ps.key, ps.keyQuoted);
    var m1 := m0.(mode := InBlockContent, key := Some(ps.key));
    var more := Events(ps.value) + (PairEvents(ps.rest) + [MappingEnd]);
    PairSplit(ps);
    assert PairEvents(ps) + [MappingEnd] == [key] + more;
    RunConcat(m0, [key], more, strtod);
    FirstEvent(ps.value);
    assert more != [] && more[0] == Events(ps.value)[0];
    RootContent(t, key, more[0], strtod);
    RunOne(m0, key, strtod);
    RunNext(m1, more, strtod);
    FlattenEvents(ps.rest);
  }

  lemma RootContent(t: Tree, key: Event, e: Event, strtod: Strtod)
    requires WellFormed(t) && t[[]].Array? && key.ScalarEvent?
    ensures var m0 := AtRoot(t, None);
      var m1 := m0.(mode := InBlockContent, key := Some(key.text));
      && Sound(m0) && Sound(m1) && OnTree(m0) && OnTree(m1)
      && Step(m0, key, strtod) == Running(m1)
      && (e.ScalarEvent? ==> Step(m1, e, strtod) == Failed(t))
  {
    hide WellFormed, Classify, Put;
    DocumentOpens(t, None, strtod);
    ReadyMachine(AtRoot(t, None));
  }

  /** The pairs of a document below an array root, up to the end of its mapping. */
  lemma ArrayContent(t: Tree, ps: Pairs, strtod: Strtod)
    requires WellFormed(t) && t[[]].Array? && ps.Pair?
    ensures var p := ScriptDocument(t[[]], None, ps, strtod);
      var r := Perform(t, p.tasks);
      && Sound(AtRoot(t, None))
      && Run(AtRoot(t, None), PairEvents(ps) + [MappingEnd], strtod)
         == if r.ok then Running(Machine(InBlock, p.key, [], r.tree)) else Failed(r.tree)
  {
    hide Run, Perform, Events, PairEvents, ScriptElement, ScriptItems, Sound, Placing, Flatten, ItemEvents;
    FirstPair(t, ps, strtod);
    PerformOne(t, Halt);
    if !ps.value.ScalarDoc? {
      var m := AtRoot(t, None).(mode := InBlockContent, key := Some(ps.key));
      var p := ScriptElement([], 0, Some(ps.key), ps.value, strtod);
      var q := Sequel(p, ScriptItems([], 1, p.key, ModeAfter(ps.value), Flatten(ps.rest), strtod));
      ItemsStep(m, ps.value, m, Flatten(ps.rest), MappingEnd, strtod);
      var r := Perform(t, q.tasks);
      assert Popped(m, r.tree, q.key) == Machine(InBlock, q.key, [], r.tree);
      PerformConcat(t, q.tasks, [Halt]);
      PerformOne(r.tree, Halt);
    }
    DocumentOpens(t, None, strtod);
  }

  /** A document with pairs below an array root. */
  lemma ArrayDocument(t: Tree, ps: Pairs, strtod: Strtod)
    requires WellFormed(t) && t[[]].Array? && ps.Pair?
    ensures var p := ScriptDocument(t[[]], None, ps, strtod);
      var r := Perform(t, p.tasks);
      && WellFormed(r.tree)
      && Does(Run(BetweenWith(t, None), DocumentEvents(ps), strtod), r, BetweenWith(r.tree, p.key))
  {
    hide Run, Perform, PairEvents, ScriptDocument, Sound;
    DocumentAround(t, None, ps, strtod);
    RunConcat(AtRoot(t, None), PairEvents(ps), [MappingEnd], strtod);
    ArrayContent(t, ps, strtod);
    StepsGrow(AtRoot(t, None), Run(AtRoot(t, None), PairEvents(ps) + [MappingEnd], strtod));
    var p := ScriptDocument(t[[]], None, ps, strtod);
    var r := Perform(t, p.tasks);
    if r.ok {
      EndDocument(r.tree, p.key, strtod);
    }
  }

  lemma EndDocument(t: Tree, key: Option<string>, strtod: Strtod)
    requires WellFormed(t)
    ensures var m := Machine(InBlock, key, [], t);
      Sound(m) && Run(m, [DocumentEnd], strtod) == Running(BetweenWith(t, key))
  {
    hide Run;
    RunOne(Machine(InBlock, key, [], t), DocumentEnd, strtod);
  }

  lemma ScalarRootSteps(t: Tree, key: Event, e: Event, strtod: Strtod)
    requires WellFormed(t) && t[[]].Leaf? && key.ScalarEvent?
    requires e.ScalarEvent? || e.MappingStart? || e.SequenceStart?
    ensures var m0 := AtRoot(t, None);
      var m1 := m0.(mode := InBlockContent, key := Some(key.text));
      && Sound(m0) && Sound(m1) && OnTree(m0) && OnTree(m1)
      && Step(m0, key, strtod) == Running(m1) && Step(m1, e, strtod) == Failed(t)
  {
    hide WellFormed, Classify;
    DocumentOpens(t, None, strtod);
    ReadyMachine(AtRoot(t, None));
  }

  /** Nothing can be put below a scalar root. */
  lemma ScalarRootRefuses(t: Tree, ps: Pairs, strtod: Strtod)
    requires WellFormed(t) && t[[]].Leaf? && ps.Pair?
    ensures Run(BetweenWith(t, None), DocumentEvents(ps), strtod) == Failed(t)
  {
    hide Run, Events, PairEvents, Step, Sound;
    var m0 := AtRoot(t, None);
    var key := ScalarEvent(ps.key, ps.keyQuoted);
    var m1 := m0.(mode := InBlockContent, key := Some(ps.key));
    DocumentAround(t, None, ps, strtod);
    PairSplit(ps);
    RunConcat(m0, [key], Events(ps.value) + PairEvents(ps.rest), strtod);
    FirstEvent(ps.value);
    ScalarRootSteps(t, key, Events(ps.value)[0], strtod);
    RunOne(m0, key, strtod);
    RunNext(m1, Events(ps.value) + PairEvents(ps.rest), strtod);
  }

  /** A document that cannot be started: a key is pending. */
  lemma PendingRefuses(t: Tree, key: string, ps: Pairs, strtod: Strtod)
    requires WellFormed(t) && ps.Pair?
    ensures Run(BetweenWith(t, Some(key)), DocumentEvents(ps), strtod) == Failed(t)
  {
    hide Run;
    DocumentAround(t, Some(key), ps, strtod);
    KeyRefused(AtRoot(t, Some(key)), PairEvents(ps), strtod);
  }

  /** Reading a document is performing its script. */
  lemma DocumentRun(t: Tree, key: Option<string>, ps: Pairs, strtod: Strtod)
    requires WellFormed(t)
    ensures var p := ScriptDocument(t[[]], key, ps, strtod);
      var r := Perform(t, p.tasks);
      && Sound(BetweenWith(t, key)) && WellFormed(r.tree)
      && Does(Run(BetweenWith(t, key), DocumentEvents(ps), strtod), r, BetweenWith(r.tree, p.key))
  {
    hide Run, Perform, DocumentEvents, ScriptPairs, ScriptElement, ScriptItems, Sound;
    DocumentOpens(t, key, strtod);
    NoTasks(t);
    PerformOne(t, Halt);
    if ps.NoPairs? {
      EmptyDocument(t, key, strtod);
    } else if key.Some? {
      PendingRefuses(t, key.value, ps, strtod);
    } else if t[[]].Leaf? {
      ScalarRootRefuses(t, ps, strtod);
    } else if t[[]].Dict? {
      DictDocument(t, None, ps, strtod);
    } else {
      ArrayDocument(t, ps, strtod);
    }
  }

  // ----- streams

  /** Scripts only look at the kind of the root. */
  lemma {:induction false} SameScript(root: Entry, root': Entry, key: Option<string>, docs: seq<Pairs>, strtod: Strtod)
    requires TypeOf(root) == TypeOf(root')
    ensures ScriptAll(root, key, docs, strtod) == ScriptAll(root', key, docs, strtod)
    decreases |docs|
  {
    hide ScriptPairs, ScriptElement, ScriptItems;
    if docs != [] {
      SameScript(root, root', ScriptDocument(root, key, docs[0], strtod).key, docs[1..], strtod);
    }
  }

  lemma {:induction false} DocumentsRun(t: Tree, key: Option<string>, docs: seq<Pairs>, strtod: Strtod)
    requires WellFormed(t)
    ensures var p := ScriptAll(t[[]], key, docs, strtod);
      var r := Perform(t, p.tasks);
      && Sound(BetweenWith(t, key)) && WellFormed(r.tree)
      && Does(Run(BetweenWith(t, key), DocumentsEvents(docs), strtod), r, BetweenWith(r.tree, p.key))
    decreases |docs|
  {
    hide Run, Perform, DocumentEvents, ScriptDocument, Sound;
    var m := BetweenWith(t, key);
    if docs == [] {
      assert Sound(m) by { DocumentOpens(t, key, strtod); }
      NoTasks(t);
      RunNext(m, [], strtod);
    } else {
      DocumentRun(t, key, docs[0], strtod);
      RunConcat(m, DocumentEvents(docs[0]), DocumentsEvents(docs[1..]), strtod);
      var p := ScriptDocument(t[[]], key, docs[0], strtod);
      PerformConcat(t, p.tasks, ScriptAll(t[[]], p.key, docs[1..], strtod).tasks);
      var r := Perform(t, p.tasks);
      if r.ok {
        PerformExtends(t, p.tasks);
        RootType(t, r.tree);
        SameScript(t[[]], r.tree[[]], p.key, docs[1..], strtod);
        DocumentsRun(r.tree, p.key, docs[1..], strtod);
      }
    }
  }

  lemma RootType(t: Tree, t': Tree)
    requires WellFormed(t) && Extends(t, t')
    ensures [] in t && [] in t' && TypeOf(t'[[]]) == TypeOf(t[[]])
  {}

  /** Performing tasks, successfully or not, loses and retypes nothing. */
  lemma {:induction false} PerformExtends(t: Tree, tasks: seq<Task>)
    ensures Extends(t, Perform(t, tasks).tree)
    decreases |tasks|
  {
    if tasks != [] && tasks[0].Store? && tasks[0].at != [] {
      var w := Write(t, tasks[0].at, tasks[0].entry);
      if w.ok {
        PerformExtends(w.tree, tasks[1..]);
        ExtendsTransitive(t, w.tree, Perform(t, tasks).tree);
      }
    }
  }

  /** The writes for a stream of mappings. */
  function StreamPlan(root: Entry, docs: seq<Pairs>, strtod: Strtod): seq<Task> {
    ScriptAll(root, None, docs, strtod).tasks
  }

  /** A document with pairs cannot be read while a key is pending. */
  lemma {:induction false} PendingDocuments(root: Entry, key: Option<string>, docs: seq<Pairs>, strtod: Strtod)
    requires key.Some?
    ensures var p := ScriptAll(root, key, docs, strtod);
      Halt in p.tasks || (p.tasks == [] && p.key == key && PlanAll(docs, strtod) == [])
    decreases |docs|
  {
    if docs != [] && docs[0].NoPairs? {
      PendingDocuments(root, key, docs[1..], strtod);
    }
  }

  lemma EmptyScript(strtod: Strtod)
    ensures ScriptPairs([], None, NoPairs, strtod) == Script([], None, InBlock)
  {}

  lemma OneDocument(root: Entry, ps: Pairs, strtod: Strtod)
    ensures StreamPlan(root, [ps], strtod) == ScriptDocument(root, None, ps, strtod).tasks
  {
    hide ScriptDocument;
    var p := ScriptDocument(root, None, ps, strtod);
    assert [ps][1..] == [];
    assert ScriptAll(root, p.key, [], strtod) == Script([], p.key, InBlock);
  }

  /** Reading a stream is performing its writes: for all documents, all roots, and all ends. */
  lemma ReadIsPlan(t: Tree, docs: seq<Pairs>, strtod: Strtod)
    requires WellFormed(t)
    ensures Read(t, StreamEvents(docs), strtod) == Perform(t, StreamPlan(t[[]], docs, strtod))
  {
    hide ScriptAll, DocumentsEvents, Run, Perform;
    var m := Machine(AtStart, None, [], t);
    RunEnclosed(m, StreamStart, DocumentsEvents(docs), StreamEnd, strtod);
    RunOne(m, StreamStart, strtod);
    DocumentsRun(t, None, docs, strtod);
    var r := Run(BetweenWith(t, None), DocumentsEvents(docs), strtod);
    if r.Running? {
      RunOne(r.m, StreamEnd, strtod);
    }
  }

  lemma ReadKeeps(t: Tree, es: seq<Event>, strtod: Strtod)
    requires WellFormed(t)
    ensures Grows(t, Read(t, es, strtod).tree)
  {
    hide Run;
    StepsGrow(Machine(AtStart, None, [], t), Run(Machine(AtStart, None, [], t), es, strtod));
  }
}
