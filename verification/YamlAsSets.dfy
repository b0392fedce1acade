/**
 * Reading a stream leaves the same scalars as setting each of its leaves by path: below a dict root,
 * and below an array root exactly if the first value is a sequence.
 */
module YamlAsSets {

  import opened Basics
  import opened CText
  import opened Convert
  import opened ConfigTree
  import opened PathSpec
  import opened PathLaws
  import opened Yaml
  import opened YamlDocs
  import opened YamlLaws
  import opened YamlScripts
  import opened YamlStreams
  import opened YamlMerge
  import opened YamlArrayRoots

  // ----- addresses as paths

  /** A key that can stand as one token of a path without being taken for an index. */
  predicate PlainKey(key: string) {
    IsToken(key) && !Bracketed(key)
  }

  predicate PlainSeg(s: Seg) {
    s.Key? ==> PlainKey(s.name)
  }

  predicate PlainAddr(c: Addr) {
    forall k :: 0 <= k < |c| ==> PlainSeg(c[k])
  }

  function TextOf(s: Seg): string {
    match s
    case Key(name) => name
    case Idx(i) => IndexText(i)
  }

  function Texts(c: Addr): seq<string> {
    if c == [] then [] else [TextOf(c[0])] + Texts(c[1..])
  }

  /** The path that names an address. */
  function PathTo(c: Addr): string {
    Join(Texts(c))
  }

  predicate SmallIndices(c: Addr) {
    forall k :: 0 <= k < |c| && c[k].Idx? ==> c[k].index < MAX_SIZE
  }

  lemma SegReads(s: Seg)
    requires PlainSeg(s) && (s.Idx? ==> s.index < MAX_SIZE)
    ensures IsToken(TextOf(s)) && ContainerFor(TextOf(s)) == KindOf(s)
    ensures Resolve(KindOf(s), Some(TextOf(s)), 0) == Some(s)
  {
    if s.Idx? {
      IndexTextReads(s.index);
      IndexTextIsToken(s.index);
    }
  }

  lemma {:induction false} TextsRead(a: Addr, c: Addr)
    requires c != [] && PlainAddr(c) && SmallIndices(c)
    ensures Texts(c) != [] && forall tok :: tok in Texts(c) ==> IsToken(tok)
    ensures ContainerFor(Texts(c)[0]) == KindOf(c[0])
    ensures Target(KindOf(c[0]), a, Texts(c)) == Some(a + c)
    decreases |c|
  {
    hide Resolve, ContainerFor, ArrayIndex, IndexText;
    SegReads(c[0]);
    if |c| == 1 {
      assert a + [c[0]] == a + c && Texts(c[1..]) == [];
    } else {
      TextsRead(a + [c[0]], c[1..]);
      assert a + [c[0]] + c[1..] == a + c;
      assert Texts(c)[1..] == Texts(c[1..]);
    }
  }

  lemma {:induction false} TextsAreTokens(c: Addr)
    requires c != [] && PlainAddr(c)
    ensures Texts(c) != [] && forall tok :: tok in Texts(c) ==> IsToken(tok)
    decreases |c|
  {
    if c[0].Idx? {
      IndexTextIsToken(c[0].index);
    }
    if |c| > 1 {
      TextsAreTokens(c[1..]);
    }
  }

  /** Where the path of an address leads: below an array root, a name stands for index 0. */
  function Landing(root: Entry, c: Addr): Addr {
    if root.Array? && c != [] then [Idx(0)] + c[1..] else c
  }

  /** The path of an address leads back to it from a dict root, and to its landing from an array root. */
  lemma PathLeadsBack(root: Entry, c: Addr)
    requires !root.Leaf? && c != [] && c[0].Key? && PlainAddr(c) && SmallIndices(c)
    ensures Address(root, Tokens(PathTo(c))) == Some(Landing(root, c))
    ensures root.Dict? ==> Landing(root, c) == c
  {
    TextsRead([], c);
    TokensOfJoin(Texts(c));
    assert [] + c == c;
    if root.Array? {
      NameLandsAtZero(c);
    }
  }

  lemma NameLandsAtZero(c: Addr)
    requires c != [] && c[0].Key? && PlainAddr(c) && SmallIndices(c)
    ensures Texts(c) != [] && Target(Array, [], Texts(c)) == Some(Landing(Array, c))
  {
    var toks := Texts(c);
    assert toks[0] == c[0].name && PlainSeg(c[0]);
    assert [] + [Idx(0)] == [Idx(0)];
    if |c| == 1 {
      assert c[1..] == [];
      assert Texts(c[1..]) == [] && toks == [c[0].name];
      assert [Idx(0)] + c[1..] == [Idx(0)];
    } else {
      TextsRead([Idx(0)], c[1..]);
      assert toks[1..] == Texts(c[1..]) && toks[1] == Texts(c[1..])[0];
      assert Target(Array, [], toks) == Target(ContainerFor(toks[1]), [Idx(0)], toks[1..]);
    }
  }

  /** Below an array root, every path with a plain name at its start leads below index 0. */
  lemma PathStartsAtZero(c: Addr)
    requires c != [] && c[0].Key? && PlainAddr(c)
    ensures var n := Address(Array, Tokens(PathTo(c)));
      n.Some? ==> n.value != [] && n.value[0] == Idx(0)
  {
    TextsAreTokens(c);
    TokensOfJoin(Texts(c));
    TargetShape(Array, [], Texts(c));
  }

  // ----- one leaf

  /** In a well-formed tree, the ancestors of a present address are containers of the right kinds. */
  lemma AncestorsFit(m: Tree, c: Addr, j: nat)
    requires WellFormed(m) && c in m && j < |c|
    ensures c[..j] in m && m[c[..j]] == KindOf(c[j])
    ensures c[j].Idx? ==> c[j].index < MAX_SIZE
  {
    PrefixClosed(m, c, j + 1);
    assert c[..j + 1] == c[..j] + [c[j]];
  }

  /**
   * The sets have built a part of the tree that the reading ends in, and all scalars that the
   * reading has made so far.
   */
  ghost predicate Tracks(s: Tree, m: Tree, last: Tree) {
    && WellFormed(s) && WellFormed(last)
    && (forall p :: p in s ==> p in last && TypeOf(s[p]) == TypeOf(last[p]))
    && Scalars(s) == Scalars(m)
  }

  /** A part of a well-formed tree leaves room for every leaf of that tree. */
  lemma LeafIsSettable(s: Tree, m: Tree, last: Tree, c: Addr, v: Scalar)
    requires Tracks(s, m, last) && c != [] && c in last && TypeOf(last[c]) == TypeOf(Leaf(v))
    ensures Settable(s, c, 0, Leaf(v)) && SmallIndices(c)
  {
    forall j | 0 < j <= |c|
      ensures Admits(s, c[..j], if j < |c| then KindOf(c[j]) else Leaf(v))
    {
      AncestorsFit(last, c, j - 1);
      assert c[..j][|c[..j]| - 1] == c[j - 1];
      if j < |c| {
        AncestorsFit(last, c, j);
      } else {
        assert c[..j] == c;
      }
    }
    forall k | 0 <= k < |c| && c[k].Idx?
      ensures c[k].index < MAX_SIZE
    {
      AncestorsFit(last, c, k);
    }
  }

  lemma WriteScalars(m: Tree, c: Addr, e: Entry)
    requires c != [] && Write(m, c, e).ok
    ensures Scalars(Write(m, c, e).tree) == if e.Leaf? then Scalars(m)[c := e.value] else Scalars(m)
  {
    if !e.Leaf? && c in m {
      assert TypeOf(m[c]) == TypeOf(e);
    }
  }

  lemma LeafTracks(s: Tree, m: Tree, last: Tree, c: Addr, v: Scalar)
    requires Tracks(s, m, last) && c != [] && c in last && TypeOf(last[c]) == TypeOf(Leaf(v))
    requires Settable(s, c, 0, Leaf(v)) && Write(m, c, Leaf(v)).ok && WellFormed(Grafted(s, c, 1, Leaf(v)))
    ensures Tracks(Grafted(s, c, 1, Leaf(v)), Write(m, c, Leaf(v)).tree, last)
  {
    hide Grafted, Settable;
    var s' := Grafted(s, c, 1, Leaf(v));
    forall p | p in s'
      ensures p in last && TypeOf(s'[p]) == TypeOf(last[p])
    {
      GraftedEntries(s, c, Leaf(v), p);
      if p !in s && p != c {
        AncestorsFit(last, c, |p|);
      }
    }
    GraftedScalar(s, c, v);
    WriteScalars(m, c, Leaf(v));
  }

  lemma LandingIsPlain(root: Entry, c: Addr)
    requires PlainAddr(c) && SmallIndices(Landing(root, c)) && c != [] && c[0].Key?
    ensures SmallIndices(c) && |Landing(root, c)| == |c|
  {
    forall k | 0 <= k < |c| && c[k].Idx?
      ensures c[k].index < MAX_SIZE
    {
      assert Landing(root, c)[k] == c[k];
    }
  }

  /** Setting one leaf by its path keeps up with writing it at the landing. */
  lemma SetTracksWrite(s: Tree, m: Tree, last: Tree, c: Addr, v: Scalar)
    requires Tracks(s, m, last) && Named(c)
    requires var n := Landing(last[[]], c);
      Write(m, n, Leaf(v)).ok && n in last && TypeOf(last[n]) == TypeOf(Leaf(v))
    ensures var r := SetPath(s, PathTo(c), Some(Leaf(v)));
      r.ok && Tracks(r.tree, Write(m, Landing(last[[]], c), Leaf(v)).tree, last)
  {
    hide SetTokens, Settable, Grafted, PathTo, Tokens, Address, Write;
    var n := Landing(last[[]], c);
    LeafIsSettable(s, m, last, n, v);
    AncestorsFit(last, n, 0);
    assert n[..0] == [];
    assert TypeOf(s[[]]) == TypeOf(last[[]]);
    LandingIsPlain(last[[]], c);
    PathLeadsBack(last[[]], c);
    SetSucceedsExactly(s, Tokens(PathTo(c)), Leaf(v));
    SetWrites(s, Tokens(PathTo(c)), Leaf(v));
    SetKeeps(s, PathTo(c), Some(Leaf(v)));
    LeafTracks(s, m, last, n, v);
  }

  // ----- all leaves

  /** `sconf_set` on every leaf of a plan, in document order, by the leaf's path. */
  function SetLeaves(s: Tree, tasks: seq<Task>): (r: Merged)
    requires [] in s
    ensures [] in r.tree
    decreases |tasks|
  {
    if tasks == [] then Merged(true, s)
    else if tasks[0].Store? && tasks[0].entry.Leaf? then
      var r := SetPath(s, PathTo(tasks[0].at), Some(tasks[0].entry));
      if r.ok then SetLeaves(r.tree, tasks[1..]) else Merged(false, r.tree)
    else SetLeaves(s, tasks[1..])
  }

  /** All keys are non-empty, without dots, and do not start with a bracket. */
  predicate PlainDoc(d: Doc) {
    match d
    case ScalarDoc(_, _) => true
    case Mapping(pairs) => PlainPairs(pairs)
    case Sequence(items) => PlainItems(items)
  }

  predicate PlainPairs(ps: Pairs) {
    match ps
    case NoPairs => true
    case Pair(key, _, value, rest) => PlainKey(key) && PlainDoc(value) && PlainPairs(rest)
  }

  predicate PlainItems(items: Items) {
    match items
    case NoItems => true
    case Item(head, tail) => PlainDoc(head) && PlainItems(tail)
  }

  /** An address that paths can name. */
  predicate Named(c: Addr) {
    c != [] && |c| < MAX_DEPTH && c[0].Key? && PlainAddr(c)
  }

  ghost predicate AllNamed(tasks: seq<Task>) {
    forall task :: task in tasks && task.Store? ==> Named(task.at)
  }

  lemma PlainChild(a: Addr, s: Seg)
    requires PlainAddr(a) && PlainSeg(s) && (a == [] ==> s.Key?) && (a != [] ==> a[0].Key?) && |a| <= MAX_DEPTH - 2
    ensures Named(a + [s])
  {
    forall k | 0 <= k < |a + [s]|
      ensures PlainSeg((a + [s])[k])
    {
      assert k < |a| ==> (a + [s])[k] == a[k];
    }
  }

  lemma {:induction false} ChildNamed(a: Addr, s: Seg, d: Doc, strtod: Strtod)
    requires PlainDoc(d) && Named(a + [s])
    ensures AllNamed(PlanChild(a, s, d, strtod))
    decreases d
  {
    hide Named;
    match d {
      case ScalarDoc(_, _) =>
      case Mapping(pairs) =>
        if |a| + 1 < MAX_DEPTH - 1 {
          PairsNamed(a + [s], pairs, strtod);
        }
      case Sequence(items) =>
        if |a| + 1 < MAX_DEPTH - 1 {
          ItemsNamed(a + [s], 0, items, strtod);
        }
    }
  }

  lemma {:induction false} PairsNamed(a: Addr, ps: Pairs, strtod: Strtod)
    requires PlainPairs(ps) && (a == [] || Named(a)) && |a| < MAX_DEPTH - 1
    ensures AllNamed(PlanPairs(a, ps, strtod))
    decreases ps
  {
    if ps.Pair? {
      PlainChild(a, Key(ps.key));
      hide Named;
      ChildNamed(a, Key(ps.key), ps.value, strtod);
      PairsNamed(a, ps.rest, strtod);
    }
  }

  lemma {:induction false} ItemsNamed(a: Addr, i: nat, items: Items, strtod: Strtod)
    requires PlainItems(items) && Named(a) && |a| < MAX_DEPTH - 1
    ensures AllNamed(PlanItems(a, i, items, strtod))
    decreases items
  {
    if items.Item? {
      PlainChild(a, Idx(i));
      hide Named;
      ChildNamed(a, Idx(i), items.head, strtod);
      ItemsNamed(a, i + 1, items.tail, strtod);
    }
  }

  lemma {:induction false} StreamNamed(docs: seq<Pairs>, strtod: Strtod)
    requires forall ps :: ps in docs ==> PlainPairs(ps)
    ensures AllNamed(PlanAll(docs, strtod))
    decreases |docs|
  {
    hide Named, PlanPairs, PlainPairs;
    if docs != [] {
      PairsNamed([], docs[0], strtod);
      StreamNamed(docs[1..], strtod);
    }
  }

  /** The writes of a plan, each at the landing of its address. */
  function Landed(root: Entry, tasks: seq<Task>): seq<Task> {
    if tasks == [] then []
    else [if tasks[0].Halt? then Halt else Store(Landing(root, tasks[0].at), tasks[0].entry)] + Landed(root, tasks[1..])
  }

  /** Setting the leaves keeps up with performing the landed plan. */
  lemma {:induction false} LeavesKeepUp(s: Tree, m: Tree, tasks: seq<Task>, last: Tree)
    requires Tracks(s, m, last) && AllNamed(tasks) && Fitting(last, Landed(last[[]], tasks))
    requires Perform(m, Landed(last[[]], tasks)).ok
    ensures var r := SetLeaves(s, tasks);
      r.ok && Scalars(r.tree) == Scalars(Perform(m, Landed(last[[]], tasks)).tree)
    decreases |tasks|
  {
    hide Named, SetPath, PathTo, Landing, Write;
    if tasks != [] {
      var landed := Landed(last[[]], tasks);
      assert tasks[0] in tasks && landed[0] in landed && landed[1..] == Landed(last[[]], tasks[1..]);
      var n, e := landed[0].at, landed[0].entry;
      if e.Leaf? {
        SetTracksWrite(s, m, last, tasks[0].at, e.value);
        LeavesKeepUp(SetPath(s, PathTo(tasks[0].at), Some(e)).tree, Write(m, n, e).tree, tasks[1..], last);
      } else {
        WriteScalars(m, n, e);
        LeavesKeepUp(s, Write(m, n, e).tree, tasks[1..], last);
      }
    }
  }

  /** If a stream's plan, landed, is what reading it performs, then setting its leaves keeps up. */
  lemma SettingKeepsUp(t: Tree, docs: seq<Pairs>, strtod: Strtod)
    requires WellFormed(t) && forall ps :: ps in docs ==> PlainPairs(ps)
    requires Read(t, StreamEvents(docs), strtod).ok
    requires StreamPlan(t[[]], docs, strtod) == Landed(t[[]], PlanAll(docs, strtod))
    ensures var sets := SetLeaves(t, PlanAll(docs, strtod));
      sets.ok && Scalars(sets.tree) == Scalars(Read(t, StreamEvents(docs), strtod).tree)
  {
    hide Read, StreamEvents, SetLeaves, Perform, PlanAll, StreamPlan, PlainPairs, Fitting, Landed, Overlay;
    var last := Read(t, StreamEvents(docs), strtod).tree;
    var tasks := PlanAll(docs, strtod);
    ReadIsPlan(t, docs, strtod);
    ReadKeeps(t, StreamEvents(docs), strtod);
    PerformGives(t, Landed(t[[]], tasks));
    StreamNamed(docs, strtod);
    RootType(t, last);
    if !t[[]].Leaf? {
      LeavesKeepUp(t, t, tasks, last);
    } else {
      LeafRootLanded(t[[]], last[[]], tasks);
      LeavesKeepUp(t, t, tasks, last);
    }
  }

  lemma {:induction false} LeafRootLanded(root: Entry, root': Entry, tasks: seq<Task>)
    requires root.Array? == root'.Array?
    ensures Landed(root, tasks) == Landed(root', tasks)
    decreases |tasks|
  {
    if tasks != [] {
      LeafRootLanded(root, root', tasks[1..]);
    }
  }

  // ----- dict and scalar roots

  lemma {:induction false} LandedInPlace(root: Entry, tasks: seq<Task>)
    requires !root.Array?
    ensures Landed(root, tasks) == tasks
    decreases |tasks|
  {
    if tasks != [] {
      LandedInPlace(root, tasks[1..]);
    }
  }

  lemma {:induction false} LeafPlan(root: Entry, docs: seq<Pairs>, strtod: Strtod)
    requires root.Leaf? && Halt !in StreamPlan(root, docs, strtod)
    ensures StreamPlan(root, docs, strtod) == [] && PlanAll(docs, strtod) == []
    decreases |docs|
  {
    if docs != [] {
      RefusalHalts(None);
      LeafPlan(root, docs[1..], strtod);
    }
  }

  lemma NoHalt(t: Tree, tasks: seq<Task>)
    requires Perform(t, tasks).ok
    ensures Halt !in tasks
  {
    PerformGives(t, tasks);
  }

  // ----- array roots

  lemma {:induction false} LandedConcat(root: Entry, p: seq<Task>, q: seq<Task>)
    ensures Landed(root, p + q) == Landed(root, p) + Landed(root, q)
    decreases |p|
  {
    if p == [] {
      assert p + q == q;
    } else {
      assert (p + q)[0] == p[0] && (p + q)[1..] == p[1..] + q;
      LandedConcat(root, p[1..], q);
    }
  }

  lemma LandedOne(task: Task)
    ensures Landed(Array, [task]) == [if task.Halt? then Halt else Store(Landing(Array, task.at), task.entry)]
  {
    assert [task][1..] == [];
  }

  /** A plan below a name, and the same plan below index 0. */
  lemma {:induction false} ChildLands(a: Addr, s: Seg, d: Doc, b: Addr, u: Seg, strtod: Strtod)
    requires Landing(Array, a + [s]) == b + [u]
    ensures Landed(Array, PlanChild(a, s, d, strtod)) == PlanChild(b, u, d, strtod)
    decreases d
  {
    hide Landing;
    assert |a + [s]| == |b + [u]| by { LandingLength(a + [s]); }
    LandedOne(Halt);
    if d.ScalarDoc? {
      var v := Classify(d.text, d.quoted, strtod);
      if v.Some? {
        LandedOne(Store(a + [s], Leaf(v.value)));
      }
    } else {
      LandedOne(Store(a + [s], Container(d)));
      LandedConcat(Array, [Store(a + [s], Container(d))], if |a| + 1 >= MAX_DEPTH - 1 then [Halt]
        else if d.Mapping? then PlanPairs(a + [s], d.pairs, strtod) else PlanItems(a + [s], 0, d.items, strtod));
      if d.Mapping? {
        PairsLand(a + [s], d.pairs, strtod);
      } else {
        ItemsLand(a + [s], 0, d.items, strtod);
      }
    }
  }

  lemma LandingLength(c: Addr)
    ensures |Landing(Array, c)| == |c|
  {}

  lemma LandingChild(a: Addr, s: Seg)
    requires a != []
    ensures Landing(Array, a + [s]) == Landing(Array, a) + [s]
  {
    assert (a + [s])[1..] == a[1..] + [s];
  }

  lemma {:induction false} PairsLand(a: Addr, ps: Pairs, strtod: Strtod)
    requires a != []
    ensures Landed(Array, PlanPairs(a, ps, strtod)) == PlanPairs(Landing(Array, a), ps, strtod)
    decreases ps
  {
    hide Landing, PlanChild;
    if ps.Pair? {
      LandingChild(a, Key(ps.key));
      ChildLands(a, Key(ps.key), ps.value, Landing(Array, a), Key(ps.key), strtod);
      PairsLand(a, ps.rest, strtod);
      LandedConcat(Array, PlanChild(a, Key(ps.key), ps.value, strtod), PlanPairs(a, ps.rest, strtod));
    }
  }

  lemma {:induction false} ItemsLand(a: Addr, i: nat, items: Items, strtod: Strtod)
    requires a != []
    ensures Landed(Array, PlanItems(a, i, items, strtod)) == PlanItems(Landing(Array, a), i, items, strtod)
    decreases items
  {
    hide Landing, PlanChild;
    if items.Item? {
      LandingChild(a, Idx(i));
      ChildLands(a, Idx(i), items.head, Landing(Array, a), Idx(i), strtod);
      ItemsLand(a, i + 1, items.tail, strtod);
      LandedConcat(Array, PlanChild(a, Idx(i), items.head, strtod), PlanItems(a, i + 1, items.tail, strtod));
    }
  }

  /** Below an array root, with a sequence first, there is one pair, and its sequence goes to index 0. */
  lemma SequenceFirst(ps: Pairs, strtod: Strtod)
    requires ps.Pair? && PlainKey(ps.key) && ps.value.Sequence?
    requires Halt !in ScriptDocument(Array, None, ps, strtod).tasks
    ensures var p := ScriptDocument(Array, None, ps, strtod);
      p.key == Some(ps.key) && p.tasks == Landed(Array, PlanPairs([], ps, strtod))
  {
    hide ScriptChild, PlanChild, Landed;
    var p := ScriptElement([], 0, Some(ps.key), ps.value, strtod);
    assert [] + [Idx(0)] == [Idx(0)] && Landing(Array, [] + [Key(ps.key)]) == [Idx(0)];
    KeyedChild([], Idx(0), ps.key, ps.value, strtod);
    var others := ScriptItems([], 1, p.key, InBlock, Flatten(ps.rest), strtod);
    RefusalHalts(p.key);
    ChildLands([], Key(ps.key), ps.value, [], Idx(0), strtod);
    assert PlanPairs([], ps, strtod) == PlanChild([], Key(ps.key), ps.value, strtod);
  }

  /** With a mapping first, the key of the second pair is an element of its own. */
  lemma MappingFirst(ps: Pairs, strtod: Strtod)
    requires ps.Pair? && PlainKey(ps.key) && ps.value.Mapping?
    requires Halt !in ScriptDocument(Array, None, ps, strtod).tasks
    ensures exists v :: Store([Idx(1)], Leaf(v)) in ScriptDocument(Array, None, ps, strtod).tasks
  {
    hide ScriptChild, PlanChild;
    var p := ScriptElement([], 0, Some(ps.key), ps.value, strtod);
    assert [] + [Idx(1)] == [Idx(1)];
    KeyedChild([], Idx(0), ps.key, ps.value, strtod);
    var others := ScriptItems([], 1, p.key, InSequence, Flatten(ps.rest), strtod);
    RefusalHalts(p.key);
    if ps.rest.Pair? {
      SecondKey(ps.rest, ps.key, strtod);
      var v :| Store([Idx(1)], Leaf(v)) in others.tasks;
      assert Store([Idx(1)], Leaf(v)) in p.tasks + others.tasks;
    }
  }

  lemma SecondKey(ps: Pairs, key: string, strtod: Strtod)
    requires ps.Pair? && !Bracketed(key)
    requires Halt !in ScriptItems([], 1, Some(key), InSequence, Flatten(ps), strtod).tasks
    ensures exists v :: Store([Idx(1)], Leaf(v)) in ScriptItems([], 1, Some(key), InSequence, Flatten(ps), strtod).tasks
  {
    hide ScriptItems, Classify;
    var items := Flatten(ps);
    assert [] + [Idx(1)] == [Idx(1)];
    KeyedItems([], 1, key, InSequence, items, strtod);
    var v := Classify(ps.key, ps.keyQuoted, strtod);
    FirstIn(if v.Some? then Store([Idx(1)], Leaf(v.value)) else Halt, PlanItems([], 2, items.tail, strtod));
  }

  lemma FirstIn(task: Task, tasks: seq<Task>)
    ensures task in [task] + tasks
  {
    assert ([task] + tasks)[0] == task;
  }

  /** What the first pair decides for a stream that is read below an array root. */
  lemma {:induction false} ArrayPlan(docs: seq<Pairs>, strtod: Strtod)
    requires Halt !in StreamPlan(Array, docs, strtod) && forall ps :: ps in docs ==> PlainPairs(ps)
    ensures SequenceComesFirst(docs) ==> StreamPlan(Array, docs, strtod) == Landed(Array, PlanAll(docs, strtod))
    ensures !SequenceComesFirst(docs) ==> exists v :: Store([Idx(1)], Leaf(v)) in StreamPlan(Array, docs, strtod)
    decreases |docs|
  {
    hide ScriptDocument, PlanPairs, Landed;
    if docs != [] {
      var p := ScriptDocument(Array, None, docs[0], strtod);
      assert docs[0] in docs;
      if docs[0].NoPairs? {
        EmptyFirst(docs[0], strtod);
        assert [] + PlanAll(docs[1..], strtod) == PlanAll(docs[1..], strtod);
        ArrayPlan(docs[1..], strtod);
      } else {
        DocumentDecides(docs[0], strtod);
        if docs[0].value.Sequence? {
          SequenceFirst(docs[0], strtod);
          PendingDocuments(Array, p.key, docs[1..], strtod);
          assert PlanPairs([], docs[0], strtod) + [] == PlanPairs([], docs[0], strtod);
        } else {
          assert docs[0].value.Mapping?;
          MappingFirst(docs[0], strtod);
        }
      }
    } else {
      LandedNone();
    }
  }

  lemma LandedNone()
    ensures Landed(Array, []) == []
  {}

  lemma EmptyFirst(ps: Pairs, strtod: Strtod)
    requires ps.NoPairs?
    ensures ScriptDocument(Array, None, ps, strtod) == Script([], None, InBlock) && PlanPairs([], ps, strtod) == []
  {}

  /** The first value of the stream, if there is one, is a sequence. */
  predicate SequenceComesFirst(docs: seq<Pairs>) {
    var ps := FirstNonEmpty(docs);
    ps.Some? ==> ps.value.value.Sequence?
  }

  /** Below an array root, setting leaves by their paths makes no scalar beside index 0. */
  lemma {:induction false} SetsStayAtZero(s: Tree, tasks: seq<Task>, c: Addr)
    requires WellFormed(s) && s[[]].Array? && AllNamed(tasks)
    requires c != [] && c[0] != Idx(0) && c !in Scalars(s)
    ensures c !in Scalars(SetLeaves(s, tasks).tree)
    decreases |tasks|
  {
    hide SetPath, Named, PathTo, Tokens, Address;
    if tasks != [] {
      assert tasks[0] in tasks;
      if tasks[0].Store? && tasks[0].entry.Leaf? {
        var r := SetPath(s, PathTo(tasks[0].at), Some(tasks[0].entry));
        SetKeeps(s, PathTo(tasks[0].at), Some(tasks[0].entry));
        NamedStart(tasks[0].at);
        PathStartsAtZero(tasks[0].at);
        assert TypeOf(r.tree[[]]) == TypeOf(s[[]]);
        if r.ok {
          SetRefinesFlatMap(s, PathTo(tasks[0].at), tasks[0].entry.value);
          SetsStayAtZero(r.tree, tasks[1..], c);
        } else {
          FailedSetKeepsScalars(s, PathTo(tasks[0].at), Some(tasks[0].entry));
        }
      } else {
        SetsStayAtZero(s, tasks[1..], c);
      }
    }
  }

  lemma NamedStart(c: Addr)
    requires Named(c)
    ensures c != [] && c[0].Key? && PlainAddr(c)
  {}

  // ----- all roots

  /**
   * When reading a stream with plain keys succeeds, setting its leaves by path, in document order,
   * succeeds at every leaf and ends in the same scalars: always below a dict root, where the documents
   * are supported, and below a scalar root, where there are no leaves. Below an array root whose second
   * element is free, it does so if and only if the first value, should there be one, is a sequence.
   */
  lemma ReadIsSettingLeaves(t: Tree, docs: seq<Pairs>, strtod: Strtod)
    requires WellFormed(t) && forall ps :: ps in docs ==> PlainPairs(ps)
    requires t[[]].Dict? ==> forall ps :: ps in docs ==> SupportedPairs(ps)
    requires t[[]].Array? ==> [Idx(1)] !in t
    requires Read(t, StreamEvents(docs), strtod).ok
    ensures var sets := SetLeaves(t, PlanAll(docs, strtod));
      sets.ok && Scalars(sets.tree) == Scalars(Read(t, StreamEvents(docs), strtod).tree)
      <==> (t[[]].Array? ==> SequenceComesFirst(docs))
    ensures t[[]].Leaf? ==> PlanAll(docs, strtod) == []
  {
    hide Read, StreamEvents, SetLeaves, Perform, PlanAll;
    hide StreamPlan, PlainPairs, SupportedPairs, Landed, SequenceComesFirst;
    ReadIsPlan(t, docs, strtod);
    NoHalt(t, StreamPlan(t[[]], docs, strtod));
    LandingPlan(t[[]], docs, strtod);
    if t[[]].Array? && !SequenceComesFirst(docs) {
      SettingMisses(t, docs, strtod);
    } else {
      SettingKeepsUp(t, docs, strtod);
    }
  }

  lemma LandingPlan(root: Entry, docs: seq<Pairs>, strtod: Strtod)
    requires Halt !in StreamPlan(root, docs, strtod) && forall ps :: ps in docs ==> PlainPairs(ps)
    requires root.Dict? ==> forall ps :: ps in docs ==> SupportedPairs(ps)
    ensures !(root.Array? && !SequenceComesFirst(docs)) ==>
      StreamPlan(root, docs, strtod) == Landed(root, PlanAll(docs, strtod))
    ensures root.Leaf? ==> PlanAll(docs, strtod) == []
  {
    hide StreamPlan, PlanAll, Landed, SequenceComesFirst, PlainPairs, SupportedPairs;
    if root.Array? {
      ArrayPlan(docs, strtod);
    } else {
      LandedInPlace(root, PlanAll(docs, strtod));
      if root.Dict? {
        SupportedStreamIsPlan(docs, strtod);
      } else {
        LeafPlan(root, docs, strtod);
      }
    }
  }

  lemma SettingMisses(t: Tree, docs: seq<Pairs>, strtod: Strtod)
    requires WellFormed(t) && t[[]].Array? && [Idx(1)] !in t && forall ps :: ps in docs ==> PlainPairs(ps)
    requires Read(t, StreamEvents(docs), strtod).ok && !SequenceComesFirst(docs)
    ensures [Idx(1)] !in Scalars(SetLeaves(t, PlanAll(docs, strtod)).tree)
    ensures [Idx(1)] in Scalars(Read(t, StreamEvents(docs), strtod).tree)
  {
    hide Read, StreamEvents, SetLeaves, Perform, PlanAll, StreamPlan, PlainPairs, SequenceComesFirst, Landed;
    ReadIsPlan(t, docs, strtod);
    NoHalt(t, StreamPlan(Array, docs, strtod));
    ArrayPlan(docs, strtod);
    var v :| Store([Idx(1)], Leaf(v)) in StreamPlan(Array, docs, strtod);
    StoredScalar(t, StreamPlan(Array, docs, strtod), [Idx(1)], v);
    StreamNamed(docs, strtod);
    SetsStayAtZero(t, PlanAll(docs, strtod), [Idx(1)]);
  }

  lemma StoredScalar(t: Tree, tasks: seq<Task>, c: Addr, v: Scalar)
    requires Perform(t, tasks).ok && Store(c, Leaf(v)) in tasks
    ensures c in Scalars(Perform(t, tasks).tree)
  {
    hide Perform, Overlay;
    PerformGives(t, tasks);
  }

  // ----- a mapping at the start, below an array root

  /** The document "a: {}" and, behind it, a quoted "b" with the value "[]". */
  const MAPPING_FIRST :=
    Pair("a", false, Mapping(NoPairs), Pair("b", true, Sequence(NoItems), NoPairs))

  lemma MappingFirstScript(strtod: Strtod)
    ensures StreamPlan(Array, [MAPPING_FIRST], strtod) ==
      [Store([Idx(0)], Dict), Store([Idx(1)], Leaf(Str("b"))), Store([Idx(2)], Array)]
  {
    var key := Some("a");
    var b, list := ScalarDoc("b", true), Sequence(NoItems);
    assert [] + [Idx(0)] == [Idx(0)] && [] + [Idx(1)] == [Idx(1)] && [] + [Idx(2)] == [Idx(2)];
    OneDocument(Array, MAPPING_FIRST, strtod);
    assert Flatten(Pair("b", true, list, NoPairs)) == Item(b, Item(list, NoItems));
    assert ScriptElement([], 0, key, Mapping(NoPairs), strtod) == Script([Store([Idx(0)], Dict)], key, InSequence);
    assert ScriptElement([], 1, key, b, strtod) == Script([Store([Idx(1)], Leaf(Str("b")))], key, InSequence);
    assert ScriptElement([], 2, key, list, strtod) == Script([Store([Idx(2)], Array)], key, InBlock);
    assert ScriptItems([], 2, key, InSequence, Item(list, NoItems), strtod)
      == Script([Store([Idx(2)], Array)], key, InBlock);
  }

  /** It is read below an empty array root and leaves a scalar, but has no leaf that could be set. */
  lemma MappingOnArrayRoot(s: Tree, strtod: Strtod)
    requires [] in s
    ensures var t: Tree := map[[] := Array];
      && WellFormed(t) && SupportedPairs(MAPPING_FIRST) && PlainPairs(MAPPING_FIRST)
      && Read(t, StreamEvents([MAPPING_FIRST]), strtod)
         == Merged(true, map[[] := Array, [Idx(0)] := Dict, [Idx(1)] := Leaf(Str("b")), [Idx(2)] := Array])
      && SetLeaves(s, PlanAll([MAPPING_FIRST], strtod)) == Merged(true, s)
  {
    hide Read, StreamEvents, StreamPlan, Perform, SetLeaves, PlanAll, PlainPairs;
    var t: Tree := map[[] := Array];
    assert forall a: Addr, u: Seg :: a + [u] != [];
    ReadIsPlan(t, [MAPPING_FIRST], strtod);
    MappingFirstScript(strtod);
    ThreeElements();
    NothingToSet(s, strtod);
    PlainMapping();
  }

  lemma ThreeElements()
    ensures Perform(map[[] := Array], [Store([Idx(0)], Dict), Store([Idx(1)], Leaf(Str("b"))), Store([Idx(2)], Array)])
      == Merged(true, map[[] := Array, [Idx(0)] := Dict, [Idx(1)] := Leaf(Str("b")), [Idx(2)] := Array])
  {
    ThreeStores(map[[] := Array], Store([Idx(0)], Dict), Store([Idx(1)], Leaf(Str("b"))), Store([Idx(2)], Array));
  }

  lemma PlainMapping()
    ensures PlainPairs(MAPPING_FIRST)
  {
    assert IsToken("a") && IsToken("b");
  }

  lemma NothingToSet(s: Tree, strtod: Strtod)
    requires [] in s
    ensures SetLeaves(s, PlanAll([MAPPING_FIRST], strtod)) == Merged(true, s)
  {
    var dict, list := Store([Key("a")], Dict), Store([Key("b")], Array);
    assert [] + [Key("a")] == [Key("a")] && [] + [Key("b")] == [Key("b")];
    assert PlanChild([], Key("a"), Mapping(NoPairs), strtod) == [dict];
    assert PlanChild([], Key("b"), Sequence(NoItems), strtod) == [list];
    assert PlanPairs([], MAPPING_FIRST.rest, strtod) == [list];
    assert [MAPPING_FIRST][1..] == [];
    assert PlanAll([MAPPING_FIRST], strtod) == [dict, list];
    assert [dict, list][1..] == [list] && [list][1..] == [];
    assert SetLeaves(s, []) == Merged(true, s);
    assert SetLeaves(s, [list]) == Merged(true, s);
  }
}
