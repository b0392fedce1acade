/** The merge as a list of writes, and what performing a list of writes leaves. */
module YamlLaws {

  import opened Basics
  import opened Convert
  import opened ConfigTree
  import opened Yaml
  import opened YamlDocs

  // ----- a document as a list of writes

  /** A write at an address, or a failure that does not depend on the tree. */
  datatype Task = Store(at: Addr, entry: Entry) | Halt

  function PlanChild(a: Addr, s: Seg, d: Doc, strtod: Strtod): seq<Task>
    decreases d
  {
    match d
    case ScalarDoc(text, quoted) =>
      (match Classify(text, quoted, strtod)
       case None => [Halt]
       case Some(v) => [Store(a + [s], Leaf(v))])
    case Mapping(pairs) =>
      [Store(a + [s], Dict)] + if |a| + 1 >= MAX_DEPTH - 1 then [Halt] else PlanPairs(a + [s], pairs, strtod)
    case Sequence(items) =>
      [Store(a + [s], Array)] + if |a| + 1 >= MAX_DEPTH - 1 then [Halt] else PlanItems(a + [s], 0, items, strtod)
  }

  function PlanPairs(a: Addr, ps: Pairs, strtod: Strtod): seq<Task>
    decreases ps
  {
    match ps
    case NoPairs => []
    case Pair(key, _, value, rest) => PlanChild(a, Key(key), value, strtod) + PlanPairs(a, rest, strtod)
  }

  function PlanItems(a: Addr, i: nat, items: Items, strtod: Strtod): seq<Task>
    decreases items
  {
    match items
    case NoItems => []
    case Item(head, tail) => PlanChild(a, Idx(i), head, strtod) + PlanItems(a, i + 1, tail, strtod)
  }

  function PlanAll(docs: seq<Pairs>, strtod: Strtod): seq<Task> {
    if docs == [] then [] else PlanPairs([], docs[0], strtod) + PlanAll(docs[1..], strtod)
  }

  function Perform(t: Tree, tasks: seq<Task>): Merged
    decreases |tasks|
  {
    if tasks == [] then Merged(true, t)
    else if tasks[0].Halt? || tasks[0].at == [] then Merged(false, t)
    else
      var w := Write(t, tasks[0].at, tasks[0].entry);
      if w.ok then Perform(w.tree, tasks[1..]) else w
  }

  lemma {:induction false} PerformConcat(t: Tree, tasks: seq<Task>, tasks': seq<Task>)
    ensures Perform(t, tasks + tasks') == var r := Perform(t, tasks); if r.ok then Perform(r.tree, tasks') else r
    decreases |tasks|
  {
    if tasks == [] {
      assert tasks + tasks' == tasks';
    } else {
      assert (tasks + tasks')[0] == tasks[0] && (tasks + tasks')[1..] == tasks[1..] + tasks';
      if tasks[0].Store? && tasks[0].at != [] {
        PerformConcat(Write(t, tasks[0].at, tasks[0].entry).tree, tasks[1..], tasks');
      }
    }
  }

  lemma PerformOne(t: Tree, task: Task)
    requires task.Store? ==> task.at != []
    ensures Perform(t, [task]) == if task.Store? then Write(t, task.at, task.entry) else Merged(false, t)
  {
    assert [task][1..] == [];
  }

  lemma ThreeStores(t: Tree, p: Task, q: Task, r: Task)
    requires p.Store? && q.Store? && r.Store? && p.at != [] && q.at != [] && r.at != []
    ensures var t1 := Write(t, p.at, p.entry);
      var t2 := Write(t1.tree, q.at, q.entry);
      t1.ok && t2.ok ==> Perform(t, [p, q, r]) == Write(t2.tree, r.at, r.entry)
  {
    hide Write;
    assert [p, q, r][1..] == [q, r] && [q, r][1..] == [r];
    PerformOne(Write(Write(t, p.at, p.entry).tree, q.at, q.entry).tree, r);
  }

  lemma {:induction false} ChildIsPlan(t: Tree, a: Addr, s: Seg, d: Doc, strtod: Strtod)
    ensures MergeChild(t, a, s, d, strtod) == Perform(t, PlanChild(a, s, d, strtod))
    decreases d
  {
    hide Write, Perform;
    match d {
      case ScalarDoc(text, quoted) =>
        var v := Classify(text, quoted, strtod);
        PerformOne(t, if v.Some? then Store(a + [s], Leaf(v.value)) else Halt);
      case Mapping(pairs) =>
        PerformOne(t, Store(a + [s], Dict));
        var w := Write(t, a + [s], Dict);
        PerformOne(w.tree, Halt);
        PerformConcat(t, [Store(a + [s], Dict)],
          if |a| + 1 >= MAX_DEPTH - 1 then [Halt] else PlanPairs(a + [s], pairs, strtod));
        PairsIsPlan(w.tree, a + [s], pairs, strtod);
      case Sequence(items) =>
        PerformOne(t, Store(a + [s], Array));
        var w := Write(t, a + [s], Array);
        PerformOne(w.tree, Halt);
        PerformConcat(t, [Store(a + [s], Array)],
          if |a| + 1 >= MAX_DEPTH - 1 then [Halt] else PlanItems(a + [s], 0, items, strtod));
        ItemsIsPlan(w.tree, a + [s], 0, items, strtod);
    }
  }

  lemma {:induction false} PairsIsPlan(t: Tree, a: Addr, ps: Pairs, strtod: Strtod)
    ensures MergePairs(t, a, ps, strtod) == Perform(t, PlanPairs(a, ps, strtod))
    decreases ps
  {
    if ps.Pair? {
      ChildIsPlan(t, a, Key(ps.key), ps.value, strtod);
      PerformConcat(t, PlanChild(a, Key(ps.key), ps.value, strtod), PlanPairs(a, ps.rest, strtod));
      PairsIsPlan(MergeChild(t, a, Key(ps.key), ps.value, strtod).tree, a, ps.rest, strtod);
    }
  }

  lemma {:induction false} ItemsIsPlan(t: Tree, a: Addr, i: nat, items: Items, strtod: Strtod)
    ensures MergeItems(t, a, i, items, strtod) == Perform(t, PlanItems(a, i, items, strtod))
    decreases items
  {
    if items.Item? {
      ChildIsPlan(t, a, Idx(i), items.head, strtod);
      PerformConcat(t, PlanChild(a, Idx(i), items.head, strtod), PlanItems(a, i + 1, items.tail, strtod));
      ItemsIsPlan(MergeChild(t, a, Idx(i), items.head, strtod).tree, a, i + 1, items.tail, strtod);
    }
  }

  /** Merging documents is performing their writes in document order. */
  lemma {:induction false} AllIsPlan(t: Tree, docs: seq<Pairs>, strtod: Strtod)
    ensures MergeAll(t, docs, strtod) == Perform(t, PlanAll(docs, strtod))
    decreases |docs|
  {
    if docs != [] {
      PairsIsPlan(t, [], docs[0], strtod);
      PerformConcat(t, PlanPairs([], docs[0], strtod), PlanAll(docs[1..], strtod));
      AllIsPlan(MergePairs(t, [], docs[0], strtod).tree, docs[1..], strtod);
    }
  }

  // ----- what has been performed

  /** The writes of a plan, later ones taking precedence. */
  function Overlay(tasks: seq<Task>): Tree {
    if tasks == [] then map[]
    else if tasks[0].Store? then map[tasks[0].at := tasks[0].entry] + Overlay(tasks[1..])
    else Overlay(tasks[1..])
  }

  /** Every write of the plan finds an entry of its own type. */
  ghost predicate Fitting(u: Tree, tasks: seq<Task>) {
    forall task :: task in tasks ==>
      task.Store? && task.at != [] && task.at in u && TypeOf(u[task.at]) == TypeOf(task.entry)
  }

  lemma {:induction false} PerformGives(t: Tree, tasks: seq<Task>)
    requires Perform(t, tasks).ok
    ensures Perform(t, tasks).tree == t + Overlay(tasks)
    ensures Extends(t, Perform(t, tasks).tree)
    ensures Fitting(Perform(t, tasks).tree, tasks)
    decreases |tasks|
  {
    if tasks != [] {
      var w := Write(t, tasks[0].at, tasks[0].entry);
      PerformGives(w.tree, tasks[1..]);
      var r := Perform(t, tasks);
      assert t + Overlay(tasks) == w.tree + Overlay(tasks[1..]);
      ExtendsTransitive(t, w.tree, r.tree);
      assert tasks[0].at in w.tree;
      forall task | task in tasks
        ensures task.Store? && task.at != [] && task.at in r.tree && TypeOf(r.tree[task.at]) == TypeOf(task.entry)
      {
        if task != tasks[0] {
          assert task in tasks[1..];
        }
      }
    }
  }

  /** Writing what is there changes nothing. */
  lemma {:induction false} PerformIdle(t: Tree, tasks: seq<Task>)
    requires forall task :: task in tasks ==> task.Store? && task.at != [] && task.at in t && t[task.at] == task.entry
    ensures Perform(t, tasks) == Merged(true, t)
    decreases |tasks|
  {
    if tasks != [] {
      assert tasks[0] in tasks;
      assert t[tasks[0].at := tasks[0].entry] == t;
      PerformIdle(t, tasks[1..]);
    }
  }
}
