/**
 * Reading below an array root. The key of the first pair is never dropped: its container becomes an
 * element, and what follows is taken for further elements, as far as it goes.
 */
module YamlArrayRoots {

  import opened Basics
  import opened Convert
  import opened ConfigTree
  import opened Yaml
  import opened YamlDocs
  import opened YamlLaws
  import opened YamlScripts
  import opened YamlStreams

  /** The first document with pairs. */
  function FirstNonEmpty(docs: seq<Pairs>): (r: Option<Pairs>)
    ensures r.Some? ==> r.value.Pair?
  {
    if docs == [] then None else if docs[0].Pair? then Some(docs[0]) else FirstNonEmpty(docs[1..])
  }

  /** The element that the first key stands for. */
  function FirstSlot(key: string): Option<Seg> {
    Resolve(Array, Some(key), 0)
  }

  /** Whether nothing at all can be made of the first pair. */
  predicate FirstRefused(t: Tree, ps: Pairs)
    requires ps.Pair?
  {
    || ps.value.ScalarDoc?
    || FirstSlot(ps.key).None?
    || !Admits(t, [FirstSlot(ps.key).value], Container(ps.value))
  }

  lemma DocumentDecides(ps: Pairs, strtod: Strtod)
    requires ps.Pair?
    ensures var tasks := ScriptDocument(Array, None, ps, strtod).tasks;
      && tasks != []
      && if ps.value.ScalarDoc? || FirstSlot(ps.key).None? then tasks[0] == Halt
         else tasks[0] == Store([FirstSlot(ps.key).value], Container(ps.value))
  {
    hide ScriptItems, ScriptPairs, Flatten;
    var s := FirstSlot(ps.key);
    if !ps.value.ScalarDoc? && s.Some? {
      assert [] + [s.value] == [s.value];
      var p := ScriptChild([s.value], Some(ps.key), ps.value, strtod);
      assert ScriptElement([], 0, Some(ps.key), ps.value, strtod) == p;
      assert p.tasks[0] == Store([s.value], Container(ps.value));
    }
  }

  lemma {:induction false} FirstDecides(docs: seq<Pairs>, strtod: Strtod)
    ensures var plan := StreamPlan(Array, docs, strtod);
      match FirstNonEmpty(docs)
      case None => plan == []
      case Some(ps) =>
        && plan != []
        && if ps.value.ScalarDoc? || FirstSlot(ps.key).None? then plan[0] == Halt
           else plan[0] == Store([FirstSlot(ps.key).value], Container(ps.value))
    decreases |docs|
  {
    hide ScriptElement, ScriptItems, FirstSlot;
    if docs != [] {
      if docs[0].NoPairs? {
        FirstDecides(docs[1..], strtod);
      } else {
        DocumentDecides(docs[0], strtod);
      }
    }
  }

  /**
   * Below an array root, a stream without pairs is read and changes nothing. Otherwise the first pair
   * decides: it is refused, and nothing has changed, exactly when its value is a scalar, its key is a
   * malformed index, or its slot is taken by another type or out of range. In all other cases the slot
   * holds the container afterwards.
   */
  lemma ArrayRootFirstPair(t: Tree, docs: seq<Pairs>, strtod: Strtod)
    requires WellFormed(t) && t[[]].Array?
    ensures var r := Read(t, StreamEvents(docs), strtod);
      match FirstNonEmpty(docs)
      case None => r == Merged(true, t)
      case Some(ps) =>
        && (FirstRefused(t, ps) ==> r == Merged(false, t))
        && (!FirstRefused(t, ps) ==>
              var c := [FirstSlot(ps.key).value];
              c in r.tree && TypeOf(r.tree[c]) == TypeOf(Container(ps.value)))
  {
    hide Read, StreamEvents, StreamPlan, FirstSlot;
    ReadIsPlan(t, docs, strtod);
    FirstDecides(docs, strtod);
    NoTasks(t);
    var plan := StreamPlan(t[[]], docs, strtod);
    if FirstNonEmpty(docs).Some? && !FirstRefused(t, FirstNonEmpty(docs).value) {
      FirstStored(t, FirstNonEmpty(docs).value, plan);
    }
  }

  lemma FirstStored(t: Tree, ps: Pairs, plan: seq<Task>)
    requires ps.Pair? && !FirstRefused(t, ps) && plan != []
    requires plan[0] == Store([FirstSlot(ps.key).value], Container(ps.value))
    ensures var c := [FirstSlot(ps.key).value];
      var t' := Perform(t, plan).tree;
      c in t' && TypeOf(t'[c]) == TypeOf(Container(ps.value))
  {
    var w := Write(t, plan[0].at, plan[0].entry);
    PerformExtends(w.tree, plan[1..]);
  }

  /** When the slot is free, the tree tells whether the first pair has been refused. */
  lemma ArrayRootRefusal(t: Tree, docs: seq<Pairs>, strtod: Strtod)
    requires WellFormed(t) && t[[]].Array? && FirstNonEmpty(docs).Some?
    requires var s := FirstSlot(FirstNonEmpty(docs).value.key);
      s.Some? ==> [s.value] !in t
    ensures var ps := FirstNonEmpty(docs).value;
      var s := FirstSlot(ps.key);
      Read(t, StreamEvents(docs), strtod) == Merged(false, t) <==>
        ps.value.ScalarDoc? || s.None? || s.value.index >= MAX_SIZE
  {
    hide Read, StreamEvents;
    ArrayRootFirstPair(t, docs, strtod);
  }

  /** The document "a: []". */
  const EMPTY_LIST := Pair("a", false, Sequence(NoItems), NoPairs)

  /** It is read into an array, and the key is forgotten by everything but the machine. */
  lemma ListOnArrayRoot(strtod: Strtod)
    ensures var t: Tree := map[[] := Array];
      WellFormed(t) && Read(t, StreamEvents([EMPTY_LIST]), strtod) == Merged(true, map[[] := Array, [Idx(0)] := Array])
  {
    hide Read, StreamEvents;
    var t: Tree := map[[] := Array];
    assert forall a: Addr, s: Seg :: a + [s] != [];
    ReadIsPlan(t, [EMPTY_LIST], strtod);
    assert [] + [Idx(0)] == [Idx(0)];
    assert ScriptItems([Idx(0)], 0, Some("a"), InSequence, NoItems, strtod).tasks == [];
    assert ScriptElement([], 0, Some("a"), Sequence(NoItems), strtod)
      == Script([Store([Idx(0)], Array)], Some("a"), InBlock);
    assert ScriptDocument(Array, None, EMPTY_LIST, strtod) == Script([Store([Idx(0)], Array)], Some("a"), InBlock);
    OneDocument(Array, EMPTY_LIST, strtod);
    assert StreamPlan(Array, [EMPTY_LIST], strtod) == [Store([Idx(0)], Array)];
    PerformOne(t, Store([Idx(0)], Array));
  }

  // ----- elements while a plain key is pending

  /** Under a key that is no index, elements are written as the merge writes them, as long as nothing is refused. */
  lemma {:induction false} KeyedChild(a: Addr, s: Seg, key: string, d: Doc, strtod: Strtod)
    requires Halt !in ScriptChild(a + [s], Some(key), d, strtod).tasks && !Bracketed(key)
    ensures var p := ScriptChild(a + [s], Some(key), d, strtod);
      p.tasks == PlanChild(a, s, d, strtod) && p.key == Some(key)
    ensures d.Mapping? ==> d.pairs.NoPairs?
    decreases d
  {
    match d {
      case ScalarDoc(_, _) =>
      case Mapping(pairs) =>
      case Sequence(items) =>
        if |a| + 1 < MAX_DEPTH - 1 {
          KeyedItems(a + [s], 0, key, InSequence, items, strtod);
        }
    }
  }

  lemma {:induction false} KeyedItems(a: Addr, i: nat, key: string, mode: Mode, items: Items, strtod: Strtod)
    requires Halt !in ScriptItems(a, i, Some(key), mode, items, strtod).tasks && !Bracketed(key)
    ensures var p := ScriptItems(a, i, Some(key), mode, items, strtod);
      p.tasks == PlanItems(a, i, items, strtod) && p.key == Some(key)
    decreases items
  {
    hide ScriptChild, PlanChild;
    if items.Item? {
      var p := ScriptElement(a, i, Some(key), items.head, strtod);
      assert mode == InBlock && !items.head.Mapping? ==> Refusal(Some(key)).tasks == [Halt];
      KeyedChild(a, Idx(i), key, items.head, strtod);
      KeyedItems(a, i + 1, key, ModeAfter(items.head), items.tail, strtod);
    }
  }
}
