/**
 * Reading is an overlay, whatever the events are: it succeeds exactly if it succeeds on the root alone
 * and the tree holds nothing of another type where that has made an entry, and then it puts these
 * entries over the tree.
 */
module YamlOverlay {

  import opened Basics
  import opened Convert
  import opened ConfigTree
  import opened Yaml
  import opened YamlDocs

  /** Entries at the same address have the same type. */
  ghost predicate Compatible(t: Tree, u: Tree) {
    forall c :: c in t && c in u ==> TypeOf(t[c]) == TypeOf(u[c])
  }

  /** A put into u, and the same put with a tree t beneath. */
  lemma PutOver(t: Tree, u: Tree, a: Addr, name: Option<string>, index: nat, e: Entry)
    requires WellFormed(t) && Compatible(t, u) && a in u
    ensures var r, r' := Put(u, a, name, index, Some(e)), Put(t + u, a, name, index, Some(e));
      match r
      case Refused => r' == Refused
      case Stored(u', c) =>
        && ([] in u ==> [] in u' && u'[[]] == u[[]])
        && if Compatible(t, u') then r' == Stored(t + u', c) else r' == Refused
  {
    var s := Resolve(u[a], name, index);
    if s.Some? {
      var c := a + [s.value];
      assert c[|c| - 1] == s.value;
      var u' := u[c := e];
      assert t + u' == (t + u)[c := e];
      if c in t && c !in u {
        assert Compatible(t, u') <==> TypeOf(t[c]) == TypeOf(e);
        assert a in t && Fits(t[a], s.value);
      } else {
        assert Admits(u, c, e) ==> Compatible(t, u');
      }
    }
  }

  /** The same machine with a tree beneath. */
  ghost predicate Over(m: Machine, u: Machine, t: Tree) {
    && OnTree(u) && WellFormed(t) && Compatible(t, u.tree) && u.tree[[]] == t[[]]
    && m == u.(tree := t + u.tree)
  }

  /** What a step of u means for the machine with t beneath. */
  ghost predicate Follows(r: Outcome, r': Outcome, t: Tree) {
    match r'
    case Failed(_) => r.Failed?
    case Running(u') =>
      && [] in t && [] in u'.tree && u'.tree[[]] == t[[]]
      && if Compatible(t, u'.tree) then r == Running(u'.(tree := t + u'.tree)) else r.Failed?
  }

  lemma SameTops(m: Machine, u: Machine, t: Tree)
    requires Over(m, u, t)
    ensures OnTree(m) && OnTree(u) && [] in t
    ensures forall k :: 0 <= k < |m.stack| ==> m.tree[m.stack[k].at] == u.tree[u.stack[k].at]
  {}

  lemma AdvanceOver(u: Machine, t: Tree)
    requires u.stack != [] && u.stack[0].at in u.tree
    ensures Advance(u.(tree := t + u.tree)) == Advance(u).(tree := t + u.tree)
    ensures Advance(u).tree == u.tree && |Advance(u).stack| == |u.stack|
  {}

  lemma PushOver(u: Machine, a: Addr, t: Tree)
    ensures Push(u.(tree := t + u.tree), a) ==
      match Push(u, a)
      case Failed(_) => Failed(t + u.tree)
      case Running(u') => Running(u'.(tree := t + u.tree))
    ensures Push(u, a).Running? ==> Push(u, a).m.tree == u.tree
  {}

  lemma ParentAddFollows(m: Machine, u: Machine, t: Tree, e: Entry)
    requires Over(m, u, t)
    ensures OnTree(m) && OnTree(u) && Follows(ParentAdd(m, e), ParentAdd(u, e), t)
  {
    hide Put, WellFormed, Compatible, Advance, Push;
    SameTops(m, u, t);
    if u.stack != [] {
      var p := u.stack[0];
      PutOver(t, u.tree, p.at, u.key, p.index, e);
      PutAddress(u.tree, p.at, u.key, p.index, Some(e));
      var r := Put(u.tree, p.at, u.key, p.index, Some(e));
      if r.Stored? {
        AdvanceOver(u.(tree := r.tree), t);
        PushOver(Advance(u.(tree := r.tree)), r.at, t);
      }
    }
  }

  lemma NodeAddFollows(m: Machine, u: Machine, t: Tree, parentType: Entry, text: string, quoted: bool, strtod: Strtod)
    requires Over(m, u, t)
    ensures OnTree(m) && OnTree(u)
    ensures Follows(NodeAdd(m, parentType, text, quoted, strtod), NodeAdd(u, parentType, text, quoted, strtod), t)
  {
    hide Put, WellFormed, Compatible, Advance, Classify;
    SameTops(m, u, t);
    if u.stack != [] {
      var p := u.stack[0];
      var v := Classify(text, quoted, strtod);
      if v.Some? {
        PutOver(t, u.tree, p.at, u.key, p.index, Leaf(v.value));
        PutAddress(u.tree, p.at, u.key, p.index, Some(Leaf(v.value)));
        var r := Put(u.tree, p.at, u.key, p.index, Some(Leaf(v.value)));
        if r.Stored? {
          AdvanceOver(u.(tree := r.tree), t);
        }
      }
    }
  }

  lemma InModeFollows(r: Outcome, r': Outcome, t: Tree, mode: Mode)
    requires Follows(r, r', t)
    ensures Follows(InMode(r, mode), InMode(r', mode), t)
  {}

  lemma RemoveFollows(m: Machine, u: Machine, t: Tree)
    requires Over(m, u, t)
    ensures Follows(ParentRemove(m), ParentRemove(u), t)
    ensures Follows(InMode(ParentRemove(m), InBlock), InMode(ParentRemove(u), InBlock), t)
    ensures Follows(InMode(ParentRemove(m), InSequence), InMode(ParentRemove(u), InSequence), t)
  {}

  lemma PushFollows(m: Machine, u: Machine, t: Tree)
    requires Over(m, u, t)
    ensures Follows(InMode(Push(m, []), InBlock), InMode(Push(u, []), InBlock), t)
  {}

  lemma BlockFollows(m: Machine, u: Machine, t: Tree, e: Event, strtod: Strtod)
    requires Over(m, u, t) && u.mode == InBlock
    ensures OnTree(m) && OnTree(u) && Follows(Step(m, e, strtod), Step(u, e, strtod), t)
  {
    hide ParentAdd, WellFormed, Compatible;
    SameTops(m, u, t);
    ParentAddFollows(m, u, t, Dict);
  }

  /** The states in which a value is expected. */
  lemma ValueFollows(m: Machine, u: Machine, t: Tree, e: Event, strtod: Strtod)
    requires Over(m, u, t) && (u.mode == InBlockContent || u.mode == InSequence)
    ensures OnTree(m) && OnTree(u) && Follows(Step(m, e, strtod), Step(u, e, strtod), t)
  {
    hide ParentAdd, NodeAdd, ParentRemove, WellFormed, Compatible, InMode, Follows;
    SameTops(m, u, t);
    FailedFollows(m.tree, u.tree, t);
    match e {
      case ScalarEvent(text, quoted) =>
        NodeAddFollows(m, u, t, Dict, text, quoted, strtod);
        NodeAddFollows(m, u, t, Array, text, quoted, strtod);
        InModeFollows(NodeAdd(m, Dict, text, quoted, strtod), NodeAdd(u, Dict, text, quoted, strtod), t, InBlock);
      case MappingStart =>
        ParentAddFollows(m, u, t, Dict);
        InModeFollows(ParentAdd(m, Dict), ParentAdd(u, Dict), t, InBlock);
      case SequenceStart =>
        ParentAddFollows(m, u, t, Array);
        InModeFollows(ParentAdd(m, Array), ParentAdd(u, Array), t, InSequence);
      case _ => RemoveFollows(m, u, t);
    }
  }

  lemma FailedFollows(t1: Tree, t2: Tree, t: Tree)
    ensures Follows(Failed(t1), Failed(t2), t)
  {}

  lemma StepFollows(m: Machine, u: Machine, t: Tree, e: Event, strtod: Strtod)
    requires Over(m, u, t)
    ensures OnTree(m) && OnTree(u) && Follows(Step(m, e, strtod), Step(u, e, strtod), t)
  {
    if u.mode == InBlock {
      BlockFollows(m, u, t, e, strtod);
    } else if u.mode == InBlockContent || u.mode == InSequence {
      ValueFollows(m, u, t, e, strtod);
    } else {
      hide WellFormed, Compatible;
      SameTops(m, u, t);
      PushFollows(m, u, t);
    }
  }

  /** What is incompatible stays so. */
  lemma CompatibleBefore(t: Tree, u: Tree, u': Tree)
    requires Extends(u, u') && Compatible(t, u')
    ensures Compatible(t, u)
  {
    forall c | c in t && c in u
      ensures TypeOf(t[c]) == TypeOf(u[c])
    {
      assert c in u';
    }
  }

  lemma RootAlone(root: Entry)
    ensures WellFormed(map[[] := root])
  {
    assert forall a: Addr, s: Seg :: a + [s] != [];
  }

  lemma BareCompatible(t: Tree)
    requires [] in t
    ensures Compatible(t, map[[] := t[[]]])
  {}

  /** No event replaces the root. */
  lemma {:induction false} RootStays(u: Machine, es: seq<Event>, strtod: Strtod)
    requires Sound(u)
    ensures var r := Run(u, es, strtod);
      r.Running? ==> [] in u.tree && [] in r.m.tree && r.m.tree[[]] == u.tree[[]]
    decreases |es|
  {
    hide Step, Sound, Compatible, WellFormed;
    ReadyMachine(u);
    RunNext(u, es, strtod);
    if es != [] {
      var bare: Tree := map[[] := u.tree[[]]];
      assert bare + u.tree == u.tree;
      assert WellFormed(bare) by { RootAlone(u.tree[[]]); }
      BareCompatible(u.tree);
      assert Compatible(bare, u.tree) by { CompatibleBoth(bare, u.tree); }
      StepFollows(u, u, bare, es[0], strtod);
      var r := Step(u, es[0], strtod);
      if r.Running? {
        RootStays(r.m, es[1..], strtod);
      }
    }
  }

  lemma CompatibleBoth(t: Tree, u: Tree)
    requires Compatible(u, t)
    ensures Compatible(t, u)
  {}

  /** A run of u, and the same run with a tree beneath. */
  lemma {:induction false} RunFollows(m: Machine, u: Machine, t: Tree, es: seq<Event>, strtod: Strtod)
    requires Over(m, u, t) && Sound(m) && Sound(u)
    ensures Follows(Run(m, es, strtod), Run(u, es, strtod), t)
    decreases |es|
  {
    hide Step, Sound, Compatible, WellFormed;
    SameTops(m, u, t);
    RunNext(m, es, strtod);
    RunNext(u, es, strtod);
    if es != [] {
      StepFollows(m, u, t, es[0], strtod);
      var r := Step(u, es[0], strtod);
      if r.Running? {
        var last := Run(r.m, es[1..], strtod);
        if Compatible(t, r.m.tree) {
          ReadyMachine(r.m);
          RunFollows(r.m.(tree := t + r.m.tree), r.m, t, es[1..], strtod);
        } else if last.Running? {
          StepsExtend(r.m, last);
          RootStays(r.m, es[1..], strtod);
          if Compatible(t, last.m.tree) {
            CompatibleBefore(t, r.m.tree, last.m.tree);
          }
        }
      }
    }
  }

  /** What a file's events write on their own, below a root of this kind. */
  function Written(root: Entry, es: seq<Event>, strtod: Strtod): Merged {
    RootAlone(root);
    Read(map[[] := root], es, strtod)
  }

  /**
   * Reading any events succeeds exactly if it succeeds below the bare root and the tree holds nothing
   * of another type where that has made an entry; then it puts these entries over the tree.
   */
  lemma ReadOverlays(t: Tree, es: seq<Event>, strtod: Strtod)
    requires WellFormed(t)
    ensures var w := Written(t[[]], es, strtod);
      && (w.ok ==> [] in w.tree && w.tree[[]] == t[[]])
      && (Read(t, es, strtod).ok <==> w.ok && Compatible(t, w.tree))
      && (Read(t, es, strtod).ok ==> Read(t, es, strtod).tree == t + w.tree)
  {
    hide Run, Compatible;
    var bare: Tree := map[[] := t[[]]];
    RootAlone(t[[]]);
    var m, u := Machine(AtStart, None, [], t), Machine(AtStart, None, [], bare);
    assert t + bare == t;
    assert Compatible(t, bare) by { BareCompatible(t); }
    RunFollows(m, u, t, es, strtod);
  }

  /** Reading any events a second time, after anything that keeps entries and types, writes the same. */
  lemma ReadsAgain(t: Tree, es: seq<Event>, strtod: Strtod, u: Tree)
    requires WellFormed(t) && WellFormed(u) && u[[]] == t[[]]
    requires Read(t, es, strtod).ok && Extends(Read(t, es, strtod).tree, u)
    ensures Read(u, es, strtod) == Merged(true, u + Written(t[[]], es, strtod).tree)
  {
    hide Read;
    var w := Written(t[[]], es, strtod);
    ReadOverlays(t, es, strtod);
    ReadOverlays(u, es, strtod);
    forall c | c in u && c in w.tree
      ensures TypeOf(u[c]) == TypeOf(w.tree[c])
    {
      assert c in t + w.tree;
    }
  }

  /** Reading any events a second time succeeds and changes nothing. */
  lemma ReadTwice(t: Tree, es: seq<Event>, strtod: Strtod)
    requires WellFormed(t) && Read(t, es, strtod).ok
    ensures var t' := Read(t, es, strtod).tree;
      WellFormed(t') && Read(t', es, strtod) == Merged(true, t')
  {
    hide Run;
    var t', w := Read(t, es, strtod).tree, Written(t[[]], es, strtod).tree;
    ReadOverlays(t, es, strtod);
    StepsGrow(Machine(AtStart, None, [], t), Run(Machine(AtStart, None, [], t), es, strtod));
    ReadsAgain(t, es, strtod, t');
    assert t' + w == t';
  }
}
