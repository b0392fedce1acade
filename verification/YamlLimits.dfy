/**
 * The documents that the machine cannot follow: when the merge of a stream succeeds, reading it
 * gives the same result exactly if every document is supported.
 */
module YamlLimits {

  import opened Basics
  import opened CText
  import opened Convert
  import opened ConfigTree
  import opened Yaml
  import opened YamlDocs
  import opened YamlLaws
  import opened YamlScripts
  import opened YamlStreams
  import opened YamlMerge

  /** No scalar element of a sequence looks like an index. */
  predicate PlainElements(d: Doc) {
    match d
    case ScalarDoc(_, _) => true
    case Mapping(pairs) => PlainInPairs(pairs)
    case Sequence(items) => PlainInItems(items)
  }

  predicate PlainInPairs(ps: Pairs) {
    match ps
    case NoPairs => true
    case Pair(_, _, value, rest) => PlainElements(value) && PlainInPairs(rest)
  }

  predicate PlainInItems(items: Items) {
    match items
    case NoItems => true
    case Item(head, tail) => PlainElements(head) && (head.ScalarDoc? ==> !Bracketed(head.text)) && PlainInItems(tail)
  }

  // ----- trees without bracketed strings behind arrays

  /** What an element whose text starts with a bracket can be read as: a string, unless `strtod` takes it. */
  predicate Odd(e: Entry) {
    e.Leaf? && (e.value.Float? || (e.value.Str? && Bracketed(e.value.text)))
  }

  lemma BracketedIsOdd(text: string, quoted: bool, strtod: Strtod)
    requires Bracketed(text) && Classify(text, quoted, strtod).Some?
    ensures Odd(Leaf(Classify(text, quoted, strtod).value))
  {
    hide StringToBool;
    WordIsNoNumber(text);
    if !quoted && StringToBool(text).Some? {
      BoolExactly(text);
    }
  }

  /** An element that is not the first. */
  predicate Later(c: Addr) {
    c != [] && c[|c| - 1].Idx? && c[|c| - 1].index > 0
  }

  /** The element before it. */
  function Before(c: Addr): Addr
    requires Later(c)
  {
    c[..|c| - 1] + [Idx(c[|c| - 1].index - 1)]
  }

  /** No array holds a string that starts with a bracket right behind an inner array or a gap. */
  ghost predicate Tidy(t: Tree) {
    forall c :: c in t && Later(c) && Odd(t[c]) ==> Before(c) in t && !t[Before(c)].Array?
  }

  /** A scalar element does not come right after an inner array. */
  ghost predicate Behind(t: Tree, c: Addr, scalar: bool) {
    scalar && Later(c) ==> Before(c) in t && !t[Before(c)].Array?
  }

  lemma WriteTidy(t: Tree, c: Addr, e: Entry)
    requires Tidy(t) && c != [] && Write(t, c, e).ok && Behind(t, c, e.Leaf?)
    ensures Tidy(Write(t, c, e).tree)
  {
    var t' := Write(t, c, e).tree;
    forall b | b in t' && Later(b) && Odd(t'[b])
      ensures Before(b) in t' && !t'[Before(b)].Array?
    {
      if b != c {
        assert Before(b) in t && !t[Before(b)].Array?;
      }
    }
  }

  /** A supported document keeps a tree tidy. */
  lemma {:induction false} ChildTidy(t: Tree, a: Addr, s: Seg, d: Doc, strtod: Strtod)
    requires Tidy(t) && Supported(d) && MergeChild(t, a, s, d, strtod).ok && Behind(t, a + [s], d.ScalarDoc?)
    ensures Tidy(MergeChild(t, a, s, d, strtod).tree)
    decreases d
  {
    hide Tidy, Write;
    match d {
      case ScalarDoc(text, quoted) =>
        WriteTidy(t, a + [s], Leaf(Classify(text, quoted, strtod).value));
      case Mapping(pairs) =>
        WriteTidy(t, a + [s], Dict);
        PairsTidy(Write(t, a + [s], Dict).tree, a + [s], pairs, strtod);
      case Sequence(items) =>
        WriteTidy(t, a + [s], Array);
        ItemsTidy(Write(t, a + [s], Array).tree, a + [s], 0, items, strtod);
    }
  }

  lemma {:induction false} PairsTidy(t: Tree, a: Addr, ps: Pairs, strtod: Strtod)
    requires Tidy(t) && SupportedPairs(ps) && MergePairs(t, a, ps, strtod).ok
    ensures Tidy(MergePairs(t, a, ps, strtod).tree)
    decreases ps
  {
    hide Tidy, MergeChild;
    if ps.Pair? {
      ChildTidy(t, a, Key(ps.key), ps.value, strtod);
      PairsTidy(MergeChild(t, a, Key(ps.key), ps.value, strtod).tree, a, ps.rest, strtod);
    }
  }

  lemma {:induction false} ItemsTidy(t: Tree, a: Addr, i: nat, items: Items, strtod: Strtod)
    requires Tidy(t) && SupportedItems(items) && MergeItems(t, a, i, items, strtod).ok
    requires items.Item? ==> Behind(t, a + [Idx(i)], items.head.ScalarDoc?)
    ensures Tidy(MergeItems(t, a, i, items, strtod).tree)
    decreases items
  {
    hide Tidy, MergeChild, Behind;
    if items.Item? {
      ChildTidy(t, a, Idx(i), items.head, strtod);
      BehindNext(t, a, i, items, strtod);
      ItemsTidy(MergeChild(t, a, Idx(i), items.head, strtod).tree, a, i + 1, items.tail, strtod);
    }
  }

  /** What an element leaves, with its type. */
  lemma ChildThere(t: Tree, a: Addr, s: Seg, d: Doc, strtod: Strtod)
    requires MergeChild(t, a, s, d, strtod).ok
    ensures var t' := MergeChild(t, a, s, d, strtod).tree;
      a + [s] in t' && (d.Sequence? <==> t'[a + [s]].Array?)
  {
    hide Classify;
    ChildIsPlan(t, a, s, d, strtod);
    var plan := PlanChild(a, s, d, strtod);
    PerformGives(t, plan);
    if !d.ScalarDoc? {
      assert plan[0] == Store(a + [s], Container(d)) && plan[0] in plan;
    }
  }

  lemma BehindNext(t: Tree, a: Addr, i: nat, items: Items, strtod: Strtod)
    requires items.Item? && MergeChild(t, a, Idx(i), items.head, strtod).ok
    requires items.tail.Item? && items.head.Sequence? ==> !items.tail.head.ScalarDoc?
    ensures items.tail.Item? ==>
      Behind(MergeChild(t, a, Idx(i), items.head, strtod).tree, a + [Idx(i + 1)], items.tail.head.ScalarDoc?)
  {
    ChildThere(t, a, Idx(i), items.head, strtod);
    assert (a + [Idx(i + 1)])[..|a + [Idx(i + 1)]| - 1] == a;
  }

  // ----- where writes go

  predicate Under(top: Addr, c: Addr) {
    |top| <= |c| && c[..|top|] == top
  }

  lemma UnderIsTransitive(a: Addr, b: Addr, c: Addr)
    requires Under(a, b) && Under(b, c)
    ensures Under(a, c)
  {
    assert c[..|a|] == c[..|b|][..|a|];
  }

  ghost predicate AllUnder(top: Addr, tasks: seq<Task>) {
    forall task :: task in tasks && task.Store? ==> Under(top, task.at)
  }

  /** No write goes below this address. */
  ghost predicate Avoids(top: Addr, tasks: seq<Task>) {
    forall task :: task in tasks && task.Store? ==> !Under(top, task.at)
  }

  lemma AllUnderUp(a: Addr, s: Seg, tasks: seq<Task>)
    requires AllUnder(a + [s], tasks)
    ensures AllUnder(a, tasks)
    ensures forall u :: u != s ==> Avoids(a + [u], tasks)
  {
    forall task | task in tasks && task.Store?
      ensures Under(a, task.at) && task.at[|a|] == s
    {
      assert Under(a + [s], task.at);
      assert task.at[..|a|] == task.at[..|a + [s]|][..|a|] && task.at[..|a + [s]|][|a|] == s;
    }
  }

  lemma {:induction false} ChildUnder(a: Addr, s: Seg, d: Doc, strtod: Strtod)
    ensures AllUnder(a + [s], PlanChild(a, s, d, strtod))
    decreases d
  {
    match d {
      case ScalarDoc(_, _) =>
      case Mapping(pairs) => PairsUnder(a + [s], pairs, strtod);
      case Sequence(items) => ItemsUnder(a + [s], 0, items, strtod, 0);
    }
  }

  lemma {:induction false} PairsUnder(a: Addr, ps: Pairs, strtod: Strtod)
    ensures AllUnder(a, PlanPairs(a, ps, strtod))
    decreases ps
  {
    if ps.Pair? {
      ChildUnder(a, Key(ps.key), ps.value, strtod);
      AllUnderUp(a, Key(ps.key), PlanChild(a, Key(ps.key), ps.value, strtod));
      PairsUnder(a, ps.rest, strtod);
    }
  }

  /** Elements are written below a, and not below those before them. */
  lemma {:induction false} ItemsUnder(a: Addr, i: nat, items: Items, strtod: Strtod, k: nat)
    ensures AllUnder(a, PlanItems(a, i, items, strtod))
    ensures k < i ==> Avoids(a + [Idx(k)], PlanItems(a, i, items, strtod))
    decreases items
  {
    if items.Item? {
      ChildUnder(a, Idx(i), items.head, strtod);
      AllUnderUp(a, Idx(i), PlanChild(a, Idx(i), items.head, strtod));
      ItemsUnder(a, i + 1, items.tail, strtod, k);
    }
  }

  // ----- scripts under a bracketed key

  /** The slot to which a bracketed key sends every element. */
  function Slot(key: Option<string>): Option<Seg> {
    if key.Some? && Bracketed(key.value) then Resolve(Array, key, 0) else None
  }

  predicate EndsWith(c: Addr, s: Seg) {
    c != [] && c[|c| - 1] == s
  }

  /** The script fails, or keeps the key and writes to its slots only. */
  ghost predicate Directed(p: Script, key: Option<string>) {
    Slot(key).Some? ==>
      || Halt in p.tasks
      || (p.key == key && forall task :: task in p.tasks && task.Store? ==>
            EndsWith(task.at, Slot(key).value))
  }

  lemma {:induction false} ChildDirected(c: Addr, key: Option<string>, d: Doc, strtod: Strtod)
    requires Slot(key).Some? ==> EndsWith(c, Slot(key).value)
    ensures Directed(ScriptChild(c, key, d, strtod), key)
    decreases d, 0
  {
    hide Slot;
    match d {
      case ScalarDoc(_, _) =>
      case Mapping(pairs) => SlotIsKey(key);
      case Sequence(items) => ItemsDirected(c, 0, key, InSequence, items, strtod);
    }
  }

  lemma SlotIsKey(key: Option<string>)
    ensures Slot(key).Some? ==> key.Some?
  {}

  lemma {:induction false} ItemsDirected(a: Addr, i: nat, key: Option<string>, mode: Mode, items: Items, strtod: Strtod)
    ensures Directed(ScriptItems(a, i, key, mode, items, strtod), key)
    decreases items, 0
  {
    hide ScriptElement;
    if Slot(key).Some? && items.Item? {
      if !(mode == InBlock && !items.head.Mapping?) {
        ElementDirected(a, i, key, items.head, strtod);
        ItemsDirected(a, i + 1, key, ModeAfter(items.head), items.tail, strtod);
      }
    }
  }

  lemma {:induction false} ElementDirected(a: Addr, i: nat, key: Option<string>, d: Doc, strtod: Strtod)
    ensures Directed(ScriptElement(a, i, key, d, strtod), key)
    decreases d, 1
  {
    hide ScriptChild;
    if Slot(key).Some? {
      assert Resolve(Array, key, i) == Slot(key);
      ChildDirected(a + [Slot(key).value], key, d, strtod);
    }
  }

  // ----- scripts that miss the merge

  ghost predicate Clash(p: seq<Task>, q: seq<Task>) {
    exists c, e, e' :: Store(c, e) in p && Store(c, e') in q && TypeOf(e) != TypeOf(e')
  }

  /** The entry at c is not the merge's, and the pending key keeps all further elements from it. */
  ghost predicate Astray(t: Tree, p: Script, q: seq<Task>, c: Addr) {
    && Slot(p.key).Some? && !EndsWith(c, Slot(p.key).value)
    && var u, w := t + Overlay(p.tasks), t + Overlay(q);
       c in w && (c in u ==> u[c] != w[c])
  }

  /** A script that does not do what the plan does, and will not, whatever follows in both. */
  ghost predicate Misses(t: Tree, p: Script, q: seq<Task>, top: Addr) {
    || Halt in p.tasks
    || Clash(p.tasks, q)
    || exists c :: Under(top, c) && Astray(t, p, q, c)
  }

  lemma {:induction false} OverlayConcat(p: seq<Task>, q: seq<Task>)
    ensures Overlay(p + q) == Overlay(p) + Overlay(q)
    decreases |p|
  {
    if p == [] {
      assert p + q == q;
    } else {
      assert (p + q)[0] == p[0] && (p + q)[1..] == p[1..] + q;
      OverlayConcat(p[1..], q);
    }
  }

  lemma {:induction false} OverlayOf(p: seq<Task>, c: Addr)
    requires c in Overlay(p)
    ensures Store(c, Overlay(p)[c]) in p
    decreases |p|
  {
    if c in Overlay(p[1..]) {
      OverlayOf(p[1..], c);
    }
  }

  /** Common writes first. */
  lemma MissesAfter(t: Tree, first: Script, p: Script, q: seq<Task>, top: Addr, top': Addr)
    requires Perform(t, first.tasks).ok && Misses(Perform(t, first.tasks).tree, p, q, top) && Under(top', top)
    ensures Misses(t, Sequel(first, p), first.tasks + q, top')
  {
    hide Overlay, Under, Slot, Perform, Fitting;
    var tasks := first.tasks;
    PerformGives(t, tasks);
    if Halt !in p.tasks && !Clash(p.tasks, q) {
      var c :| Under(top, c) && Astray(Perform(t, tasks).tree, p, q, c);
      UnderIsTransitive(top', top, c);
      OverlayConcat(tasks, p.tasks);
      OverlayConcat(tasks, q);
      assert t + Overlay(tasks) + Overlay(p.tasks) == t + (Overlay(tasks) + Overlay(p.tasks));
      assert t + Overlay(tasks) + Overlay(q) == t + (Overlay(tasks) + Overlay(q));
      assert Astray(t, Sequel(first, p), tasks + q, c);
    } else if Halt !in p.tasks {
      var c, e, e' :| Store(c, e) in p.tasks && Store(c, e') in q && TypeOf(e) != TypeOf(e');
      assert Store(c, e) in tasks + p.tasks && Store(c, e') in tasks + q;
    }
  }

  /** Different writes afterwards. */
  lemma MissesBefore(t: Tree, p: Script, q: seq<Task>, p': Script, q': seq<Task>, top: Addr, top': Addr)
    requires Misses(t, p, q, top) && Under(top', top)
    requires Slot(p.key).Some? ==> Halt in p'.tasks || (Directed(p', p.key) && Avoids(top, q'))
    ensures Misses(t, Sequel(p, p'), q + q', top')
  {
    hide Overlay, Under, Slot;
    if Halt !in p.tasks && Halt !in p'.tasks && !Clash(p.tasks, q) {
      var c :| Under(top, c) && Astray(t, p, q, c);
      UnderIsTransitive(top', top, c);
      OverlayConcat(p.tasks, p'.tasks);
      OverlayConcat(q, q');
      if c in Overlay(p'.tasks) {
        OverlayOf(p'.tasks, c);
      }
      if c in Overlay(q') {
        OverlayOf(q', c);
      }
      assert Astray(t, Sequel(p, p'), q + q', c);
    } else if Halt !in p.tasks && Halt !in p'.tasks {
      var c, e, e' :| Store(c, e) in p.tasks && Store(c, e') in q && TypeOf(e) != TypeOf(e');
      assert Store(c, e) in p.tasks + p'.tasks && Store(c, e') in q + q';
    }
  }

  // ----- the element after an inner sequence

  /** What a script does with a container under a key that a scalar element has left. */
  lemma StrayContainer(a: Addr, i: nat, text: string, d: Doc, strtod: Strtod)
    requires !d.ScalarDoc?
    ensures var p := ScriptElement(a, i, Some(text), d, strtod);
      match Resolve(Array, Some(text), i)
      case None => Halt in p.tasks
      case Some(s) => Store(a + [s], Container(d)) in p.tasks
  {
    hide ScriptPairs, ScriptItems;
    var s := Resolve(Array, Some(text), i);
    if s.Some? {
      var p := ScriptChild(a + [s.value], Some(text), d, strtod);
      assert p.tasks[0] == Store(a + [s.value], Container(d));
    }
  }

  /** The element is written where the merge does not want it, and the merge's element nowhere. */
  lemma OddContainer(t: Tree, a: Addr, i: nat, items: Items, strtod: Strtod)
    requires items.Item? && items.head.ScalarDoc? && items.tail.Item? && !items.tail.head.ScalarDoc?
    requires Classify(items.head.text, items.head.quoted, strtod).Some?
    requires i > 0 && a + [Idx(i - 1)] in t && t[a + [Idx(i - 1)]].Array?
    requires Bracketed(items.head.text) ==> Tidy(t)
    ensures Misses(t, ScriptItems(a, i, None, InBlock, items, strtod), PlanItems(a, i, items, strtod), a)
  {
    hide ScriptElement, ScriptItems, PlanItems, Tidy, Classify;
    var text, c := items.head.text, a + [Idx(i)];
    var v := Leaf(Classify(text, items.head.quoted, strtod).value);
    var first := ScriptElement(a, i, Some(text), items.tail.head, strtod);
    var others := ScriptItems(a, i + 1, first.key, ModeAfter(items.tail.head), items.tail.tail, strtod);
    var p := Sequel(first, others);
    OddUnfold(a, i, items, strtod);
    StrayContainer(a, i, text, items.tail.head, strtod);
    var s := Resolve(Array, Some(text), i);
    var q := [Store(c, v)] + PlanItems(a, i + 1, items.tail, strtod);
    assert Store(c, v) in q;
    if s.Some? && s != Some(Idx(i)) && Halt !in p.tasks {
      assert Slot(Some(text)) == s;
      ElementDirected(a, i, Some(text), items.tail.head, strtod);
      ItemsDirected(a, i + 1, first.key, ModeAfter(items.tail.head), items.tail.tail, strtod);
      assert Directed(p, Some(text)) && p.key == Some(text);
      ItemsUnder(a, i + 1, items.tail, strtod, i);
      NotOddBehind(t, a, i);
      BracketedIsOdd(text, items.head.quoted, strtod);
      OddStays(t, p, c, v, PlanItems(a, i + 1, items.tail, strtod));
      assert Under(a, c);
    } else if s.Some? && Halt !in p.tasks {
      assert Store(c, Container(items.tail.head)) in p.tasks;
    }
  }

  lemma OddUnfold(a: Addr, i: nat, items: Items, strtod: Strtod)
    requires items.Item? && items.head.ScalarDoc? && items.tail.Item? && !items.tail.head.ScalarDoc?
    requires Classify(items.head.text, items.head.quoted, strtod).Some?
    ensures var first := ScriptElement(a, i, Some(items.head.text), items.tail.head, strtod);
      ScriptItems(a, i, None, InBlock, items, strtod)
      == Sequel(first, ScriptItems(a, i + 1, first.key, ModeAfter(items.tail.head), items.tail.tail, strtod))
    ensures PlanItems(a, i, items, strtod)
      == [Store(a + [Idx(i)], Leaf(Classify(items.head.text, items.head.quoted, strtod).value))]
         + PlanItems(a, i + 1, items.tail, strtod)
  {
    hide ScriptElement, Classify;
  }

  lemma NotOddBehind(t: Tree, a: Addr, i: nat)
    requires Tidy(t) && i > 0 && a + [Idx(i - 1)] in t && t[a + [Idx(i - 1)]].Array?
    ensures a + [Idx(i)] in t ==> !Odd(t[a + [Idx(i)]])
  {
    assert (a + [Idx(i)])[..|a + [Idx(i)]| - 1] == a;
  }

  lemma OddStays(t: Tree, p: Script, c: Addr, v: Entry, q: seq<Task>)
    requires Slot(p.key).Some? && Directed(p, p.key) && Halt !in p.tasks && !EndsWith(c, Slot(p.key).value)
    requires c != [] && Avoids(c, q) && (c in t ==> t[c] != v)
    ensures Astray(t, p, [Store(c, v)] + q, c)
  {
    hide Slot;
    if c in Overlay(p.tasks) {
      OverlayOf(p.tasks, c);
    }
    if c in Overlay(q) {
      OverlayOf(q, c);
    }
    assert ([Store(c, v)] + q)[1..] == q;
  }

  /** A scalar or a sequence right after an inner sequence. */
  lemma OddElement(t: Tree, a: Addr, i: nat, items: Items, strtod: Strtod)
    requires items.Item? && !items.head.Mapping? && (PlainInItems(items) || Tidy(t))
    requires i > 0 && a + [Idx(i - 1)] in t && t[a + [Idx(i - 1)]].Array?
    requires Perform(t, PlanItems(a, i, items, strtod)).ok
    ensures Misses(t, ScriptItems(a, i, None, InBlock, items, strtod), PlanItems(a, i, items, strtod), a)
  {
    hide Tidy, Perform, Misses, Fitting, Overlay, ScriptElement;
    if items.head.ScalarDoc? && items.tail.Item? && !items.tail.head.ScalarDoc? {
      PerformGives(t, PlanItems(a, i, items, strtod));
      ScalarConverts(t, a, i, items, strtod);
      OddContainer(t, a, i, items, strtod);
    } else {
      HaltMisses(t, ScriptItems(a, i, None, InBlock, items, strtod), PlanItems(a, i, items, strtod), a);
    }
  }

  lemma HaltMisses(t: Tree, p: Script, q: seq<Task>, top: Addr)
    requires Halt in p.tasks
    ensures Misses(t, p, q, top)
  {}

  lemma ScalarConverts(t: Tree, a: Addr, i: nat, items: Items, strtod: Strtod)
    requires items.Item? && items.head.ScalarDoc? && Perform(t, PlanItems(a, i, items, strtod)).ok
    ensures Classify(items.head.text, items.head.quoted, strtod).Some?
  {
    hide Classify;
  }

  // ----- documents

  /** The plan of an element can be performed, and then that of the others. */
  lemma PlanParts(t: Tree, q: seq<Task>, q': seq<Task>)
    requires Perform(t, q + q').ok
    ensures Perform(t, q).ok && Perform(Perform(t, q).tree, q').ok
  {
    PerformConcat(t, q, q');
  }

  lemma MissesMode(t: Tree, p: Script, mode: Mode, q: seq<Task>, top: Addr)
    requires Misses(t, p, q, top)
    ensures Misses(t, p.(mode := mode), q, top)
  {
    if Halt !in p.tasks && !Clash(p.tasks, q) {
      var c :| Under(top, c) && Astray(t, p, q, c);
      assert Astray(t, p.(mode := mode), q, c);
    }
  }

  lemma {:induction false} ChildMisses(t: Tree, a: Addr, s: Seg, d: Doc, strtod: Strtod)
    requires !Supported(d) && (PlainElements(d) || Tidy(t))
    requires Perform(t, PlanChild(a, s, d, strtod)).ok
    ensures Misses(t, ScriptChild(a + [s], None, d, strtod), PlanChild(a, s, d, strtod), a + [s])
    decreases d
  {
    hide Tidy, Perform, Misses, Write, ScriptPairs, ScriptItems, PlanPairs, PlanItems;
    var c, e := a + [s], Container(d);
    var first := Script([Store(c, e)], None, InBlock);
    var w := Write(t, c, e);
    PerformOne(t, Store(c, e));
    PerformOne(w.tree, Halt);
    PlanParts(t, [Store(c, e)], if |a| + 1 >= MAX_DEPTH - 1 then [Halt]
      else if d.Mapping? then PlanPairs(c, d.pairs, strtod) else PlanItems(c, 0, d.items, strtod));
    if Tidy(t) {
      WriteTidy(t, c, e);
    }
    assert Under(c, c);
    if d.Mapping? {
      PairsMiss(w.tree, c, d.pairs, strtod);
      MissesMode(w.tree, ScriptPairs(c, None, d.pairs, strtod), InSequence, PlanPairs(c, d.pairs, strtod), c);
      MissesAfter(t, first, ScriptPairs(c, None, d.pairs, strtod).(mode := InSequence),
        PlanPairs(c, d.pairs, strtod), c, c);
    } else {
      ItemsMiss(w.tree, c, 0, InSequence, d.items, strtod);
      MissesMode(w.tree, ScriptItems(c, 0, None, InSequence, d.items, strtod), InBlock,
        PlanItems(c, 0, d.items, strtod), c);
      MissesAfter(t, first, ScriptItems(c, 0, None, InSequence, d.items, strtod).(mode := InBlock),
        PlanItems(c, 0, d.items, strtod), c, c);
    }
  }

  lemma {:induction false} PairsMiss(t: Tree, a: Addr, ps: Pairs, strtod: Strtod)
    requires !SupportedPairs(ps) && (PlainInPairs(ps) || Tidy(t))
    requires Perform(t, PlanPairs(a, ps, strtod)).ok
    ensures Misses(t, ScriptPairs(a, None, ps, strtod), PlanPairs(a, ps, strtod), a)
    decreases ps
  {
    hide Tidy, Perform, Misses, ScriptChild, PlanChild, PlainElements, Slot;
    var top := a + [Key(ps.key)];
    var p, q := ScriptChild(top, None, ps.value, strtod), PlanChild(a, Key(ps.key), ps.value, strtod);
    var q' := PlanPairs(a, ps.rest, strtod);
    PlanParts(t, q, q');
    assert Under(a, top) && Under(a, a);
    if !Supported(ps.value) {
      ChildMisses(t, a, Key(ps.key), ps.value, strtod);
      SlotIsKey(p.key);
      MissesBefore(t, p, q, ScriptPairs(a, p.key, ps.rest, strtod), q', top, a);
    } else {
      SupportedChildIsPlan(a, Key(ps.key), ps.value, strtod);
      ChildIsPlan(t, a, Key(ps.key), ps.value, strtod);
      if Tidy(t) {
        ChildTidy(t, a, Key(ps.key), ps.value, strtod);
      }
      PairsMiss(Perform(t, q).tree, a, ps.rest, strtod);
      MissesAfter(t, p, ScriptPairs(a, None, ps.rest, strtod), q', a, a);
    }
  }

  lemma {:induction false} ItemsMiss(t: Tree, a: Addr, i: nat, mode: Mode, items: Items, strtod: Strtod)
    requires !SupportedItems(items) && (PlainInItems(items) || Tidy(t))
    requires mode == InBlock && items.Item? ==> items.head.Mapping?
    requires items.Item? ==> Behind(t, a + [Idx(i)], items.head.ScalarDoc?)
    requires Perform(t, PlanItems(a, i, items, strtod)).ok
    ensures Misses(t, ScriptItems(a, i, None, mode, items, strtod), PlanItems(a, i, items, strtod), a)
    decreases items
  {
    hide Tidy, Perform, Misses, ScriptChild, PlanChild, PlainElements, Slot, Behind, Avoids, Directed;
    var d, top := items.head, a + [Idx(i)];
    var p, q := ScriptChild(top, None, d, strtod), PlanChild(a, Idx(i), d, strtod);
    var q' := PlanItems(a, i + 1, items.tail, strtod);
    PlanParts(t, q, q');
    assert Under(a, top) && Under(a, a);
    if !Supported(d) {
      ChildMisses(t, a, Idx(i), d, strtod);
      ItemsDirected(a, i + 1, p.key, ModeAfter(d), items.tail, strtod);
      ItemsUnder(a, i + 1, items.tail, strtod, i);
      MissesBefore(t, p, q, ScriptItems(a, i + 1, p.key, ModeAfter(d), items.tail, strtod), q', top, a);
    } else {
      SupportedChildIsPlan(a, Idx(i), d, strtod);
      ChildIsPlan(t, a, Idx(i), d, strtod);
      var t' := Perform(t, q).tree;
      if Tidy(t) {
        ChildTidy(t, a, Idx(i), d, strtod);
      }
      ChildThere(t, a, Idx(i), d, strtod);
      if d.Sequence? && items.tail.Item? && !items.tail.head.Mapping? {
        OddElement(t', a, i + 1, items.tail, strtod);
      } else {
        BehindNext(t, a, i, items, strtod);
        ItemsMiss(t', a, i + 1, ModeAfter(d), items.tail, strtod);
      }
      MissesAfter(t, p, ScriptItems(a, i + 1, None, ModeAfter(d), items.tail, strtod), q', a, a);
    }
  }

  lemma {:induction false} DocumentsMiss(t: Tree, docs: seq<Pairs>, strtod: Strtod)
    requires (forall ps :: ps in docs ==> PlainInPairs(ps)) || Tidy(t)
    requires exists ps :: ps in docs && !SupportedPairs(ps)
    requires Perform(t, PlanAll(docs, strtod)).ok
    ensures Misses(t, ScriptAll(Dict, None, docs, strtod), PlanAll(docs, strtod), [])
    decreases |docs|
  {
    hide Tidy, Perform, Misses, ScriptPairs, PlanPairs, PlainInPairs, Slot, ScriptElement, ScriptItems;
    var p, q := ScriptDocument(Dict, None, docs[0], strtod), PlanPairs([], docs[0], strtod);
    var q' := PlanAll(docs[1..], strtod);
    PlanParts(t, q, q');
    assert docs[0] in docs && Under([], []);
    if !SupportedPairs(docs[0]) {
      PairsMiss(t, [], docs[0], strtod);
      SlotIsKey(p.key);
      if p.key.Some? {
        PendingDocuments(Dict, p.key, docs[1..], strtod);
      }
      MissesBefore(t, p, q, ScriptAll(Dict, p.key, docs[1..], strtod), q', [], []);
    } else {
      assert ScriptPairs([], None, NoPairs, strtod) == Script([], None, InBlock) by { EmptyScript(strtod); }
      SupportedPairsArePlan([], docs[0], strtod);
      PairsIsPlan(t, [], docs[0], strtod);
      if Tidy(t) {
        PairsTidy(t, [], docs[0], strtod);
      }
      DocumentsMiss(Perform(t, q).tree, docs[1..], strtod);
      MissesAfter(t, p, ScriptAll(Dict, None, docs[1..], strtod), q', [], []);
    }
  }

  /** Performing a script that misses the plan does not give the plan's tree. */
  lemma MissedResult(t: Tree, p: Script, q: seq<Task>, top: Addr)
    requires Misses(t, p, q, top) && Perform(t, q).ok
    ensures Perform(t, p.tasks) != Perform(t, q)
  {
    hide Perform, Overlay, Slot, Under;
    PerformGives(t, q);
    if Perform(t, p.tasks).ok {
      PerformGives(t, p.tasks);
    }
  }

  /**
   * Reading is merging as far as the documents are supported up to the point where the merge ends.
   * When the merge succeeds, it ends at the end: then reading is merging exactly if every document
   * is supported. That takes an empty configuration, or any other in which no bracketed string stands
   * right behind an inner array or a gap, or documents in which no element is such a string.
   */
  lemma ReadIsMergeExactly(t: Tree, docs: seq<Pairs>, strtod: Strtod)
    requires DictRoot(t) && (Tidy(t) || forall ps :: ps in docs ==> PlainInPairs(ps))
    ensures var same := Read(t, StreamEvents(docs), strtod) == MergeAll(t, docs, strtod);
      && (FollowsAll(t, docs, strtod) ==> same)
      && (MergeAll(t, docs, strtod).ok ==> (same <==> forall ps :: ps in docs ==> SupportedPairs(ps)))
  {
    hide MergeAll, Read, Perform, FollowsAll, PlainInPairs, StreamEvents, ScriptAll, Misses, PlanAll, Tidy;
    if FollowsAll(t, docs, strtod) {
      ReadIsMerge(t, docs, strtod);
    }
    if forall ps :: ps in docs ==> SupportedPairs(ps) {
      SupportedAllFollow(t, docs, strtod);
    } else if MergeAll(t, docs, strtod).ok {
      ReadIsPlan(t, docs, strtod);
      AllIsPlan(t, docs, strtod);
      DocumentsMiss(t, docs, strtod);
      MissedResult(t, ScriptAll(Dict, None, docs, strtod), PlanAll(docs, strtod), []);
    }
  }

  /** The document "a: [[], []]". */
  const TWO_INNER := Pair("a", false, Sequence(Item(Sequence(NoItems), Item(Sequence(NoItems), NoItems))), NoPairs)

  /** The plan of a document "a: [[], ...]". */
  lemma InnerFirstPlan(items: Items, strtod: Strtod)
    ensures PlanAll([Pair("a", false, Sequence(Item(Sequence(NoItems), items)), NoPairs)], strtod)
      == [Store([Key("a")], Array), Store([Key("a"), Idx(0)], Array)] + PlanItems([Key("a")], 1, items, strtod)
  {
    hide PlanItems, PlanChild;
    var d := Sequence(Item(Sequence(NoItems), items));
    var ps := Pair("a", false, d, NoPairs);
    InnerFirstChild(items, strtod);
    assert [ps][1..] == [];
    assert PlanPairs([], ps, strtod) == PlanChild([], Key("a"), d, strtod);
  }

  lemma InnerFirstChild(items: Items, strtod: Strtod)
    ensures PlanChild([], Key("a"), Sequence(Item(Sequence(NoItems), items)), strtod)
      == [Store([Key("a")], Array), Store([Key("a"), Idx(0)], Array)] + PlanItems([Key("a")], 1, items, strtod)
  {
    hide Classify, PlanItems;
    AddressesBelowA();
    InnerFirstItems(items, strtod);
  }

  lemma InnerFirstItems(items: Items, strtod: Strtod)
    ensures PlanItems([Key("a")], 0, Item(Sequence(NoItems), items), strtod)
      == [Store([Key("a"), Idx(0)], Array)] + PlanItems([Key("a")], 1, items, strtod)
  {
    hide Classify;
    AddressesBelowA();
    assert PlanChild([Key("a")], Idx(0), Sequence(NoItems), strtod) == [Store([Key("a"), Idx(0)], Array)];
  }

  lemma AddressesBelowA()
    ensures forall i: nat :: [Key("a")] + [Idx(i)] == [Key("a"), Idx(i)]
    ensures [] + [Key("a")] == [Key("a")]
  {}

  lemma TwoInnerPlan(strtod: Strtod)
    ensures PlanAll([TWO_INNER], strtod) == [
      Store([Key("a")], Array), Store([Key("a"), Idx(0)], Array), Store([Key("a"), Idx(1)], Array)]
  {
    hide PlanAll;
    var rest := Item(Sequence(NoItems), NoItems);
    AddressesBelowA();
    InnerFirstPlan(rest, strtod);
    assert PlanItems([Key("a")], 1, rest, strtod) == [Store([Key("a"), Idx(1)], Array)];
  }

  /** A legal document with a clear meaning that cannot be read into an empty configuration. */
  lemma TwoInnerSequences(strtod: Strtod)
    ensures var t: Tree := map[[] := Dict];
      && DictRoot(t) && MergeAll(t, [TWO_INNER], strtod).ok
      && Read(t, StreamEvents([TWO_INNER]), strtod) != MergeAll(t, [TWO_INNER], strtod)
  {
    hide Read, StreamEvents, MergeAll, Perform, PlanAll, FollowsAll;
    var t: Tree := map[[] := Dict];
    assert forall a: Addr, s: Seg :: a + [s] != [];
    TwoInnerPlan(strtod);
    ThreeStores(t, Store([Key("a")], Array), Store([Key("a"), Idx(0)], Array), Store([Key("a"), Idx(1)], Array));
    AllIsPlan(t, [TWO_INNER], strtod);
    assert TWO_INNER in [TWO_INNER];
    ReadIsMergeExactly(t, [TWO_INNER], strtod);
  }

  // ----- agreement by accident

  /** The document "a: [[], "[5]", {}]". */
  const STRAY_KEY := Pair("a", false, Sequence(Item(Sequence(NoItems), STRAY_ITEMS)), NoPairs)

  /** The elements behind the inner sequence. */
  const STRAY_ITEMS := Item(ScalarDoc("[5]", true), Item(Mapping(NoPairs), NoItems))

  /** A tree that already holds whatever merging and reading this document could write. */
  const UNTIDY: Tree := map[
    [] := Dict, [Key("a")] := Array, [Key("a"), Idx(0)] := Array, [Key("a"), Idx(1)] := Leaf(Str("[5]")),
    [Key("a"), Idx(2)] := Dict, [Key("a"), Idx(5)] := Dict]

  lemma UntidyIsWellFormed()
    ensures DictRoot(UNTIDY)
  {
    hide WellFormed;
    var a := [Key("a")];
    assert [] + a == a && a + [Idx(0)] == [Key("a"), Idx(0)] && a + [Idx(1)] == [Key("a"), Idx(1)];
    assert a + [Idx(2)] == [Key("a"), Idx(2)] && a + [Idx(5)] == [Key("a"), Idx(5)];
    var t0: Tree := map[[] := Dict];
    var t1 := t0[a := Array];
    var t2 := t1[a + [Idx(0)] := Array];
    var t3 := t2[a + [Idx(1)] := Leaf(Str("[5]"))];
    var t4 := t3[a + [Idx(2)] := Dict];
    RootIsWellFormed();
    WriteKeeps(t0, [], Key("a"), Array);
    WriteKeeps(t1, a, Idx(0), Array);
    WriteKeeps(t2, a, Idx(1), Leaf(Str("[5]")));
    WriteKeeps(t3, a, Idx(2), Dict);
    WriteKeeps(t4, a, Idx(5), Dict);
    assert t4[a + [Idx(5)] := Dict] == UNTIDY;
  }

  lemma RootIsWellFormed()
    ensures WellFormed(map[[] := Dict])
  {
    assert forall a: Addr, s: Seg :: a + [s] != [];
  }

  lemma UntidyIsUntidy()
    ensures !Tidy(UNTIDY)
  {
    var c := [Key("a"), Idx(1)];
    assert Before(c) == [Key("a"), Idx(0)];
    assert c in UNTIDY && Later(c) && Odd(UNTIDY[c]);
  }

  lemma FiveIsIndex()
    ensures Bracketed("[5]") && Resolve(Array, Some("[5]"), 1) == Some(Idx(5))
  {
    assert Digits(5, 10) == "5" && IndexText(5) == "[5]";
    IndexTextReads(5);
  }

  lemma StrayItemsPlan(strtod: Strtod)
    ensures PlanItems([Key("a")], 1, STRAY_ITEMS, strtod)
      == [Store([Key("a"), Idx(1)], Leaf(Str("[5]"))), Store([Key("a"), Idx(2)], Dict)]
  {
    hide Classify;
    AddressesBelowA();
    ScalarsRead("[5]", true, 0, 0, strtod);
    assert PlanChild([Key("a")], Idx(2), Mapping(NoPairs), strtod) == [Store([Key("a"), Idx(2)], Dict)];
    assert PlanItems([Key("a")], 2, STRAY_ITEMS.tail, strtod) == [Store([Key("a"), Idx(2)], Dict)];
  }

  lemma StrayPlan(strtod: Strtod)
    ensures PlanAll([STRAY_KEY], strtod) == [
      Store([Key("a")], Array), Store([Key("a"), Idx(0)], Array),
      Store([Key("a"), Idx(1)], Leaf(Str("[5]"))), Store([Key("a"), Idx(2)], Dict)]
  {
    hide PlanAll, PlanItems, STRAY_ITEMS;
    InnerFirstPlan(STRAY_ITEMS, strtod);
    StrayItemsPlan(strtod);
  }

  lemma StrayItemsScript(strtod: Strtod)
    ensures ScriptItems([Key("a")], 1, None, InBlock, STRAY_ITEMS, strtod)
      == Script([Store([Key("a"), Idx(5)], Dict)], Some("[5]"), InSequence)
  {
    hide Classify, Resolve, Bracketed;
    AddressesBelowA();
    FiveIsIndex();
    var dict := Mapping(NoPairs);
    assert ScriptElement([Key("a")], 1, Some("[5]"), dict, strtod)
      == Script([Store([Key("a"), Idx(5)], Dict)], Some("[5]"), InSequence);
  }

  lemma StrayScript(strtod: Strtod)
    ensures StreamPlan(Dict, [STRAY_KEY], strtod) == [
      Store([Key("a")], Array), Store([Key("a"), Idx(0)], Array), Store([Key("a"), Idx(5)], Dict)]
  {
    hide Classify, Resolve, STRAY_ITEMS, StreamPlan;
    var inner := Sequence(NoItems);
    AddressesBelowA();
    StrayItemsScript(strtod);
    FirstElement();
    OneDocument(Dict, STRAY_KEY, strtod);
    assert ScriptElement([Key("a")], 0, None, inner, strtod)
      == Script([Store([Key("a"), Idx(0)], Array)], None, InBlock);
    var items := Item(inner, STRAY_ITEMS);
    assert ScriptItems([Key("a")], 0, None, InSequence, items, strtod).tasks
      == [Store([Key("a"), Idx(0)], Array), Store([Key("a"), Idx(5)], Dict)];
    assert ScriptChild([Key("a")], None, Sequence(items), strtod).tasks
      == [Store([Key("a")], Array)] + ScriptItems([Key("a")], 0, None, InSequence, items, strtod).tasks;
    hide ScriptItems, ScriptChild, ScriptElement;
    assert ScriptPairs([], None, STRAY_KEY, strtod).tasks
      == ScriptChild([Key("a")], None, Sequence(items), strtod).tasks;
  }

  lemma FirstElement()
    ensures Resolve(Array, None, 0) == Some(Idx(0))
  {}

  lemma StrayMerge(strtod: Strtod)
    ensures MergeAll(UNTIDY, [STRAY_KEY], strtod) == Merged(true, UNTIDY)
  {
    hide MergeAll, Perform, PlanAll;
    StrayPlan(strtod);
    AllIsPlan(UNTIDY, [STRAY_KEY], strtod);
    PerformIdle(UNTIDY, PlanAll([STRAY_KEY], strtod));
  }

  lemma StrayRead(strtod: Strtod)
    ensures DictRoot(UNTIDY)
    ensures Read(UNTIDY, StreamEvents([STRAY_KEY]), strtod) == Merged(true, UNTIDY)
  {
    hide Read, StreamEvents, Perform, StreamPlan;
    UntidyIsWellFormed();
    StrayScript(strtod);
    ReadIsPlan(UNTIDY, [STRAY_KEY], strtod);
    PerformIdle(UNTIDY, StreamPlan(Dict, [STRAY_KEY], strtod));
  }

  /** Reading agrees with merging although the document is not supported. */
  lemma AgreesByAccident(strtod: Strtod)
    ensures DictRoot(UNTIDY) && !Tidy(UNTIDY) && !SupportedPairs(STRAY_KEY)
    ensures MergeAll(UNTIDY, [STRAY_KEY], strtod) == Merged(true, UNTIDY)
    ensures Read(UNTIDY, StreamEvents([STRAY_KEY]), strtod) == Merged(true, UNTIDY)
  {
    hide Read, StreamEvents, MergeAll, Tidy, DictRoot;
    UntidyIsUntidy();
    StrayMerge(strtod);
    StrayRead(strtod);
  }
}
