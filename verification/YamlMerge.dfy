/**
 * The recursive merge as what reading means: below a dict root the machine computes it, as long as
 * the documents are supported as far as the merge gets.
 */
module YamlMerge {

  import opened Basics
  import opened Convert
  import opened ConfigTree
  import opened Yaml
  import opened YamlDocs
  import opened YamlLaws
  import opened YamlScripts
  import opened YamlStreams

  // ----- supported up to the point where the merge fails

  predicate FollowsChild(t: Tree, a: Addr, s: Seg, d: Doc, strtod: Strtod)
    decreases d
  {
    match d
    case ScalarDoc(_, _) => true
    case Mapping(pairs) =>
      var w := Write(t, a + [s], Dict);
      w.ok && |a| + 1 < MAX_DEPTH - 1 ==> FollowsPairs(w.tree, a + [s], pairs, strtod)
    case Sequence(items) =>
      var w := Write(t, a + [s], Array);
      w.ok && |a| + 1 < MAX_DEPTH - 1 ==> FollowsItems(w.tree, a + [s], 0, items, strtod)
  }

  predicate FollowsPairs(t: Tree, a: Addr, ps: Pairs, strtod: Strtod)
    decreases ps
  {
    match ps
    case NoPairs => true
    case Pair(key, _, value, rest) =>
      && FollowsChild(t, a, Key(key), value, strtod)
      && var r := MergeChild(t, a, Key(key), value, strtod);
         (r.ok ==> FollowsPairs(r.tree, a, rest, strtod))
  }

  predicate FollowsItems(t: Tree, a: Addr, i: nat, items: Items, strtod: Strtod)
    decreases items
  {
    match items
    case NoItems => true
    case Item(head, tail) =>
      && FollowsChild(t, a, Idx(i), head, strtod)
      && var r := MergeChild(t, a, Idx(i), head, strtod);
         (r.ok ==>
            && (head.Sequence? ==> tail.NoItems? || tail.head.Mapping?)
            && FollowsItems(r.tree, a, i + 1, tail, strtod))
  }

  lemma {:induction false} SupportedChildFollows(t: Tree, a: Addr, s: Seg, d: Doc, strtod: Strtod)
    requires Supported(d)
    ensures FollowsChild(t, a, s, d, strtod)
    decreases d
  {
    hide Write, MergeChild;
    match d {
      case ScalarDoc(_, _) =>
      case Mapping(pairs) => SupportedPairsFollow(Write(t, a + [s], Dict).tree, a + [s], pairs, strtod);
      case Sequence(items) => SupportedItemsFollow(Write(t, a + [s], Array).tree, a + [s], 0, items, strtod);
    }
  }

  lemma {:induction false} SupportedPairsFollow(t: Tree, a: Addr, ps: Pairs, strtod: Strtod)
    requires SupportedPairs(ps)
    ensures FollowsPairs(t, a, ps, strtod)
    decreases ps
  {
    hide MergeChild;
    if ps.Pair? {
      SupportedChildFollows(t, a, Key(ps.key), ps.value, strtod);
      SupportedPairsFollow(MergeChild(t, a, Key(ps.key), ps.value, strtod).tree, a, ps.rest, strtod);
    }
  }

  lemma {:induction false} SupportedItemsFollow(t: Tree, a: Addr, i: nat, items: Items, strtod: Strtod)
    requires SupportedItems(items)
    ensures FollowsItems(t, a, i, items, strtod)
    decreases items
  {
    hide MergeChild;
    if items.Item? {
      SupportedChildFollows(t, a, Idx(i), items.head, strtod);
      SupportedItemsFollow(MergeChild(t, a, Idx(i), items.head, strtod).tree, a, i + 1, items.tail, strtod);
    }
  }

  /** Every document that is reached is supported as far as its merge gets. */
  predicate FollowsAll(t: Tree, docs: seq<Pairs>, strtod: Strtod)
    decreases |docs|
  {
    docs == [] ||
    var r := MergePairs(t, [], docs[0], strtod);
    FollowsPairs(t, [], docs[0], strtod) && (r.ok ==> FollowsAll(r.tree, docs[1..], strtod))
  }

  lemma {:induction false} SupportedAllFollow(t: Tree, docs: seq<Pairs>, strtod: Strtod)
    requires forall ps :: ps in docs ==> SupportedPairs(ps)
    ensures FollowsAll(t, docs, strtod)
    decreases |docs|
  {
    hide MergePairs, FollowsPairs;
    if docs != [] {
      SupportedPairsFollow(t, [], docs[0], strtod);
      SupportedAllFollow(MergePairs(t, [], docs[0], strtod).tree, docs[1..], strtod);
    }
  }

  // ----- scripts that are merges

  lemma {:induction false} ChildMerges(t: Tree, a: Addr, s: Seg, d: Doc, strtod: Strtod)
    requires FollowsChild(t, a, s, d, strtod)
    ensures var p := ScriptChild(a + [s], None, d, strtod);
      var r := MergeChild(t, a, s, d, strtod);
      Perform(t, p.tasks) == r && (r.ok ==> p.key == None)
    decreases d
  {
    hide Write, Perform;
    var c := a + [s];
    if d.ScalarDoc? {
      var v := Classify(d.text, d.quoted, strtod);
      PerformOne(t, if v.Some? then Store(c, Leaf(v.value)) else Halt);
    } else {
      var w := Write(t, c, Container(d));
      PerformOne(t, Store(c, Container(d)));
      PerformOne(w.tree, Halt);
      PerformConcat(t, [Store(c, Container(d))],
        if |c| >= MAX_DEPTH - 1 then [Halt]
        else if d.Mapping? then ScriptPairs(c, None, d.pairs, strtod).tasks
        else ScriptItems(c, 0, None, InSequence, d.items, strtod).tasks);
      if w.ok && |c| < MAX_DEPTH - 1 {
        if d.Mapping? {
          PairsMerge(w.tree, c, d.pairs, strtod);
        } else {
          ItemsMerge(w.tree, c, 0, InSequence, d.items, strtod);
        }
      }
    }
  }

  lemma {:induction false} PairsMerge(t: Tree, a: Addr, ps: Pairs, strtod: Strtod)
    requires FollowsPairs(t, a, ps, strtod)
    ensures var p := ScriptPairs(a, None, ps, strtod);
      var r := MergePairs(t, a, ps, strtod);
      Perform(t, p.tasks) == r && (r.ok ==> p.key == None)
    decreases ps
  {
    hide ScriptChild, MergeChild, Perform;
    if ps.NoPairs? {
      NoTasks(t);
    } else {
      var p := ScriptChild(a + [Key(ps.key)], None, ps.value, strtod);
      ChildMerges(t, a, Key(ps.key), ps.value, strtod);
      PerformConcat(t, p.tasks, ScriptPairs(a, p.key, ps.rest, strtod).tasks);
      var r := MergeChild(t, a, Key(ps.key), ps.value, strtod);
      if r.ok {
        PairsMerge(r.tree, a, ps.rest, strtod);
      }
    }
  }

  lemma {:induction false} ItemsMerge(t: Tree, a: Addr, i: nat, mode: Mode, items: Items, strtod: Strtod)
    requires FollowsItems(t, a, i, items, strtod)
    requires mode == InBlock && items.Item? ==> items.head.Mapping?
    ensures var p := ScriptItems(a, i, None, mode, items, strtod);
      var r := MergeItems(t, a, i, items, strtod);
      Perform(t, p.tasks) == r && (r.ok ==> p.key == None)
    decreases items
  {
    hide ScriptChild, MergeChild, Perform;
    if items.NoItems? {
      NoTasks(t);
    } else {
      var p := ScriptChild(a + [Idx(i)], None, items.head, strtod);
      ChildMerges(t, a, Idx(i), items.head, strtod);
      PerformConcat(t, p.tasks, ScriptItems(a, i + 1, p.key, ModeAfter(items.head), items.tail, strtod).tasks);
      var r := MergeChild(t, a, Idx(i), items.head, strtod);
      if r.ok {
        ItemsMerge(r.tree, a, i + 1, ModeAfter(items.head), items.tail, strtod);
      }
    }
  }

  lemma {:induction false} AllMerge(t: Tree, docs: seq<Pairs>, strtod: Strtod)
    requires FollowsAll(t, docs, strtod)
    ensures Perform(t, ScriptAll(Dict, None, docs, strtod).tasks) == MergeAll(t, docs, strtod)
    decreases |docs|
  {
    hide ScriptPairs, MergePairs, Perform;
    if docs == [] {
      NoTasks(t);
    } else {
      var p := ScriptDocument(Dict, None, docs[0], strtod);
      DocumentMerges(t, docs[0], strtod);
      PerformConcat(t, p.tasks, ScriptAll(Dict, p.key, docs[1..], strtod).tasks);
      var r := MergePairs(t, [], docs[0], strtod);
      if r.ok {
        AllMerge(r.tree, docs[1..], strtod);
      }
    }
  }

  lemma DocumentMerges(t: Tree, ps: Pairs, strtod: Strtod)
    requires FollowsPairs(t, [], ps, strtod)
    ensures var p := ScriptDocument(Dict, None, ps, strtod);
      var r := MergePairs(t, [], ps, strtod);
      Perform(t, p.tasks) == r && (r.ok ==> p.key == None)
  {
    hide Perform, ScriptElement, ScriptItems;
    PairsMerge(t, [], ps, strtod);
    NoTasks(t);
  }

  /** Below a dict root, reading a stream is merging its documents, on success and on failure. */
  lemma ReadIsMerge(t: Tree, docs: seq<Pairs>, strtod: Strtod)
    requires DictRoot(t) && FollowsAll(t, docs, strtod)
    ensures Read(t, StreamEvents(docs), strtod) == MergeAll(t, docs, strtod)
  {
    hide Read, StreamEvents, Perform, ScriptAll, MergeAll, FollowsAll;
    ReadIsPlan(t, docs, strtod);
    AllMerge(t, docs, strtod);
  }

  // ----- supported documents, whatever the tree is

  lemma {:induction false} SupportedChildIsPlan(a: Addr, s: Seg, d: Doc, strtod: Strtod)
    requires Supported(d)
    ensures var p := ScriptChild(a + [s], None, d, strtod);
      p.tasks == PlanChild(a, s, d, strtod) && p.key == None
    decreases d
  {
    match d {
      case ScalarDoc(_, _) =>
      case Mapping(pairs) => SupportedPairsArePlan(a + [s], pairs, strtod);
      case Sequence(items) => SupportedItemsArePlan(a + [s], 0, InSequence, items, strtod);
    }
  }

  lemma {:induction false} SupportedPairsArePlan(a: Addr, ps: Pairs, strtod: Strtod)
    requires SupportedPairs(ps)
    ensures var p := ScriptPairs(a, None, ps, strtod);
      p.tasks == PlanPairs(a, ps, strtod) && p.key == None
    decreases ps
  {
    hide ScriptChild, PlanChild;
    if ps.Pair? {
      SupportedChildIsPlan(a, Key(ps.key), ps.value, strtod);
      SupportedPairsArePlan(a, ps.rest, strtod);
    }
  }

  lemma {:induction false} SupportedItemsArePlan(a: Addr, i: nat, mode: Mode, items: Items, strtod: Strtod)
    requires SupportedItems(items) && (mode == InBlock && items.Item? ==> items.head.Mapping?)
    ensures var p := ScriptItems(a, i, None, mode, items, strtod);
      p.tasks == PlanItems(a, i, items, strtod) && p.key == None
    decreases items
  {
    hide ScriptChild, PlanChild;
    if items.Item? {
      SupportedChildIsPlan(a, Idx(i), items.head, strtod);
      SupportedItemsArePlan(a, i + 1, ModeAfter(items.head), items.tail, strtod);
    }
  }

  lemma {:induction false} SupportedStreamIsPlan(docs: seq<Pairs>, strtod: Strtod)
    requires forall ps :: ps in docs ==> SupportedPairs(ps)
    ensures StreamPlan(Dict, docs, strtod) == PlanAll(docs, strtod)
    ensures ScriptAll(Dict, None, docs, strtod).key == None
    decreases |docs|
  {
    hide ScriptPairs, PlanPairs, SupportedPairs, ScriptElement, ScriptItems;
    if docs != [] {
      SupportedPairsArePlan([], docs[0], strtod);
      EmptyScript(strtod);
      SupportedStreamIsPlan(docs[1..], strtod);
    }
  }
}
