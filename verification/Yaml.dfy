/** Reading YAML, on the abstract tree: scalars, the event machine of src/yaml.c, and what every step keeps. */
module Yaml {

  import opened Basics
  import opened CText
  import opened Convert
  import opened Numerals
  import opened ConfigTree

  // ----- scalars

  /** The value of a scalar event; None is a number out of range. */
  function Classify(text: string, quoted: bool, strtod: Strtod): Option<Scalar> {
    if quoted || text == "" then Some(Str(text))
    else match StringToInteger(text)
      case Integer(i) => Some(Int(i))
      case IntegerRange => None
      case NotInteger =>
        match strtod(text)
        case FloatBits(bits) => Some(Float(bits))
        case FloatRange => None
        case NotFloat =>
          match StringToBool(text)
          case Some(b) => Some(Bool(b))
          case None => Some(Str(text))
  }

  /** Quoted text is a string, a plain numeral its number or out of range, and strings keep their text. */
  lemma ScalarsRead(text: string, quoted: bool, v: int, n: nat, strtod: Strtod)
    ensures Classify(text, true, strtod) == Some(Str(text))
    ensures Classify(Decimal(v), false, strtod) == Whole(v)
    ensures Classify("0" + Digits(n, 8), false, strtod) == Whole(n)
    ensures Classify("0x" + Digits(n, 16), false, strtod) == Whole(n)
    ensures var r := Classify(text, quoted, strtod);
      r.Some? && r.value.Str? ==> r.value.text == text
  {
    DecimalRoundTrip(v);
    OctalRoundTrip(n);
    HexRoundTrip(n);
    hide StringToInteger, StringToBool;
  }

  /** The scalar for a whole number; None is a range error. */
  function Whole(v: int): Option<Scalar> {
    if INT64_MIN <= v <= INT64_MAX then Some(Int(v)) else None
  }

  /**
   * A plain text that is no integer is the number that `strtod` makes of it; if that is none either,
   * it is a boolean if it only starts with the word for one, and a string otherwise.
   */
  lemma WordsRead(text: string, strtod: Strtod)
    requires text != "" && StringToInteger(text) == NotInteger
    ensures var r := Classify(text, false, strtod);
      match strtod(text)
      case FloatBits(bits) => r == Some(Float(bits))
      case FloatRange => r == None
      case NotFloat =>
        && (r == Some(Bool(true)) <==> exists w :: w in TRUE_WORDS && StartsWith(text, w))
        && (r == Some(Bool(false)) <==> exists w :: w in FALSE_WORDS && StartsWith(text, w))
        && (r == Some(Str(text)) <==> forall w :: w in TRUE_WORDS + FALSE_WORDS ==> !StartsWith(text, w))
  {
    hide StringToInteger, StringToBool;
    BoolExactly(text);
  }

  ghost predicate NoInteger(text: string) {
    forall v :: !IsInteger(text, v)
  }

  /** Whether a text starts with one of the six words. */
  predicate StartsWithWord(text: string) {
    exists w :: w in TRUE_WORDS + FALSE_WORDS && StartsWith(text, w)
  }

  /**
   * The value of every scalar: quoted and empty text is a string, an integer is its number or out of
   * range, and other text is a float, out of range, a boolean, or a string, in this order. So a
   * scalar keeps its text exactly if it is quoted, or empty, or nothing else can be made of it.
   */
  lemma ScalarExactly(text: string, quoted: bool, strtod: Strtod)
    ensures var r := Classify(text, quoted, strtod);
      && (quoted || text == "" ==> r == Some(Str(text)))
      && (!quoted && text != "" ==>
            && (forall v :: IsInteger(text, v) ==> r == Whole(v))
            && (NoInteger(text) && strtod(text).FloatBits? ==> r == Some(Float(strtod(text).bits)))
            && (NoInteger(text) && strtod(text).FloatRange? ==> r == None)
            && (NoInteger(text) && strtod(text).NotFloat? && StartsWithWord(text) ==> r.Some? && r.value.Bool?))
      && (r == Some(Str(text)) <==>
            quoted || text == "" || (NoInteger(text) && strtod(text).NotFloat? && !StartsWithWord(text)))
  {
    hide StringToInteger, StringToBool, IsInteger;
    IntegerExactly(text);
    if text != "" && StringToInteger(text) == NotInteger {
      WordsRead(text, strtod);
    }
    if StringToInteger(text) != NotInteger {
      var v :| IsInteger(text, v);
      assert StringToInteger(text) == if INT64_MIN <= v <= INT64_MAX then Integer(v) else IntegerRange;
    }
  }

  /** So "north" is false, whatever C library reads the numbers, as long as it takes no word for one. */
  lemma NorthIsFalse(strtod: Strtod)
    requires strtod("north") == NotFloat
    ensures Classify("north", false, strtod) == Some(Bool(false))
  {
    WordIsNoNumber("north");
    assert StartsWith("north", "no") && "no" in FALSE_WORDS;
    WordsRead("north", strtod);
  }

  // ----- the event machine

  datatype Event =
    | StreamStart | StreamEnd | DocumentStart | DocumentEnd
    | ScalarEvent(text: string, quoted: bool)
    | MappingStart | MappingEnd | SequenceStart | SequenceEnd
    | OtherEvent

  datatype Mode = AtStart | AtStop | InStream | InDocument | InBlock | InBlockContent | InSequence

  /** One entry of the parent stack: a container and, for arrays, the index of the next element. */
  datatype Frame = Frame(at: Addr, index: nat)

  /** The parser state and the tree. The top of the stack comes first; the depth is its length. */
  datatype Machine = Machine(mode: Mode, key: Option<string>, stack: seq<Frame>, tree: Tree)

  datatype Outcome = Running(m: Machine) | Failed(tree: Tree)

  /** The parents on the stack are nodes of the tree. */
  ghost predicate OnTree(m: Machine) {
    [] in m.tree && forall k :: 0 <= k < |m.stack| ==> m.stack[k].at in m.tree
  }

  /** What happens at the parent once its child has been written: count the element, or drop the key. */
  function Advance(m: Machine): Machine
    requires m.stack != [] && m.stack[0].at in m.tree
  {
    var p := m.stack[0];
    if m.tree[p.at].Array? then m.(stack := [p.(index := p.index + 1)] + m.stack[1..])
    else m.(key := None)
  }

  /** `sconf_yaml_parent_stack_push`. */
  function Push(m: Machine, a: Addr): Outcome {
    if |m.stack| >= MAX_DEPTH - 1 then Failed(m.tree) else Running(m.(stack := [Frame(a, 0)] + m.stack))
  }

  /** `sconf_yaml_parent_add`: the container is created before the depth is checked. */
  function ParentAdd(m: Machine, container: Entry): Outcome
    requires OnTree(m)
  {
    if m.stack == [] then Failed(m.tree)
    else
      var p := m.stack[0];
      if m.tree[p.at].Dict? && m.key.None? then Failed(m.tree)
      else match Put(m.tree, p.at, m.key, p.index, Some(container))
        case Refused => Failed(m.tree)
        case Stored(t, c) =>
          if |m.stack| >= MAX_DEPTH - 1 then Failed(t) else Push(Advance(m.(tree := t)), c)
  }

  /** `sconf_yaml_parent_remove`. */
  function ParentRemove(m: Machine): Outcome {
    if m.stack == [] then Failed(m.tree) else Running(m.(stack := m.stack[1..]))
  }

  /** `sconf_yaml_node_add`. */
  function NodeAdd(m: Machine, parentType: Entry, text: string, quoted: bool, strtod: Strtod): Outcome
    requires OnTree(m)
  {
    if m.stack == [] then Failed(m.tree)
    else
      var p := m.stack[0];
      if TypeOf(m.tree[p.at]) != TypeOf(parentType) then Failed(m.tree)
      else match Classify(text, quoted, strtod)
        case None => Failed(m.tree)
        case Some(v) =>
          match Put(m.tree, p.at, m.key, p.index, Some(Leaf(v)))
          case Refused => Failed(m.tree)
          case Stored(t, _) => Running(Advance(m.(tree := t)))
  }

  function InMode(r: Outcome, mode: Mode): Outcome {
    if r.Running? then Running(r.m.(mode := mode)) else r
  }

  /** `sconf_yaml_consume_event`. */
  function Step(m: Machine, e: Event, strtod: Strtod): Outcome
    requires OnTree(m)
  {
    match m.mode
    case AtStart => if e.StreamStart? then Running(m.(mode := InStream)) else Failed(m.tree)
    case AtStop => Running(m)
    case InStream =>
      if e.DocumentStart? then Running(m.(mode := InDocument))
      else if e.StreamEnd? then Running(m.(mode := AtStop))
      else Failed(m.tree)
    case InDocument =>
      if e.MappingStart? then InMode(Push(m, []), InBlock)
      else if e.DocumentEnd? then Running(m.(mode := InStream))
      else Failed(m.tree)
    case InBlock =>
      (match e
       case ScalarEvent(text, _) =>
         if m.key.Some? then Failed(m.tree) else Running(m.(key := Some(text), mode := InBlockContent))
       case SequenceEnd => ParentRemove(m)
       case MappingEnd =>
         var r := ParentRemove(m);
         if r.Running? && r.m.stack != [] && r.m.tree[r.m.stack[0].at].Array? then InMode(r, InSequence) else r
       case MappingStart => ParentAdd(m, Dict)
       case DocumentEnd => Running(m.(mode := InStream))
       case _ => Failed(m.tree))
    case InBlockContent =>
      (match e
       case ScalarEvent(text, quoted) => InMode(NodeAdd(m, Dict, text, quoted, strtod), InBlock)
       case MappingStart => InMode(ParentAdd(m, Dict), InBlock)
       case SequenceStart => InMode(ParentAdd(m, Array), InSequence)
       case _ => Failed(m.tree))
    case InSequence =>
      (match e
       case ScalarEvent(text, quoted) => NodeAdd(m, Array, text, quoted, strtod)
       case MappingStart => InMode(ParentAdd(m, Dict), InBlock)
       case SequenceStart => InMode(ParentAdd(m, Array), InSequence)
       case SequenceEnd => InMode(ParentRemove(m), InBlock)
       case _ => Failed(m.tree))
  }

  // ----- what every step keeps

  predicate ChildOf(stack: seq<Frame>, k: nat)
    requires k < |stack|
  {
    && k + 1 < |stack|
    && |stack[k].at| == |stack[k + 1].at| + 1
    && stack[k].at[..|stack[k + 1].at|] == stack[k + 1].at
  }

  /**
   * The stack is within the depth limit. Each parent on it is the root or a child of the parent
   * beneath it; so it lies no deeper in the tree than its place on the stack.
   */
  ghost predicate Chained(stack: seq<Frame>) {
    && |stack| <= MAX_DEPTH - 1
    && (forall k :: 0 <= k < |stack| ==> stack[k].at == [] || ChildOf(stack, k))
    && (forall k :: 0 <= k < |stack| ==> |stack[k].at| < |stack| - k)
  }

  /** Each parent is a container of the tree; only the root, whatever it is, is pushed unseen. */
  ghost predicate Live(stack: seq<Frame>, t: Tree) {
    forall k :: 0 <= k < |stack| ==> stack[k].at in t && (stack[k].at == [] || !t[stack[k].at].Leaf?)
  }

  ghost predicate Sound(m: Machine) {
    WellFormed(m.tree) && Chained(m.stack) && Live(m.stack, m.tree)
  }

  /** What a step may do to the tree. */
  ghost predicate Grows(t: Tree, t': Tree) {
    WellFormed(t') && Extends(t, t') && (Bounded(t) ==> Bounded(t'))
  }

  ghost predicate StepsTo(m: Machine, r: Outcome) {
    match r
    case Running(m') => Sound(m') && Grows(m.tree, m'.tree)
    case Failed(t) => Grows(m.tree, t)
  }

  lemma LiveGrows(stack: seq<Frame>, t: Tree, t': Tree)
    requires Live(stack, t) && Extends(t, t')
    ensures Live(stack, t')
  {
    forall k | 0 <= k < |stack|
      ensures stack[k].at in t' && (stack[k].at == [] || !t'[stack[k].at].Leaf?)
    {
      assert TypeOf(t'[stack[k].at]) == TypeOf(t[stack[k].at]);
    }
  }

  lemma SameParents(stack: seq<Frame>, stack': seq<Frame>, t: Tree)
    requires Chained(stack) && Live(stack, t)
    requires |stack'| == |stack| && forall k :: 0 <= k < |stack| ==> stack'[k].at == stack[k].at
    ensures Chained(stack') && Live(stack', t)
  {
    forall k | 0 <= k < |stack'|
      ensures stack'[k].at == [] || ChildOf(stack', k)
    {
      assert stack[k].at == [] || ChildOf(stack, k);
    }
  }

  lemma AdvanceSound(m: Machine)
    requires Sound(m) && m.stack != []
    ensures Sound(Advance(m)) && Advance(m).tree == m.tree
    ensures |Advance(m).stack| == |m.stack| && Advance(m).stack[0].at == m.stack[0].at
  {
    hide Chained, WellFormed;
    SameParents(m.stack, Advance(m).stack, m.tree);
  }

  lemma PushChained(stack: seq<Frame>, a: Addr)
    requires Chained(stack) && |stack| < MAX_DEPTH - 1 && |a| <= |stack|
    requires a == [] || (stack != [] && |a| == |stack[0].at| + 1 && a[..|stack[0].at|] == stack[0].at)
    ensures Chained([Frame(a, 0)] + stack)
  {
    var stack' := [Frame(a, 0)] + stack;
    forall k | 0 < k < |stack'|
      ensures stack'[k] == stack[k - 1]
      ensures stack'[k].at == [] || ChildOf(stack', k)
      ensures |stack'[k].at| < |stack'| - k
    {
      if stack'[k].at != [] {
        assert ChildOf(stack, k - 1);
      }
    }
  }

  lemma PushKeeps(m: Machine, a: Addr)
    requires Sound(m) && a in m.tree && (a == [] || !m.tree[a].Leaf?) && |a| <= |m.stack|
    requires a == [] || (m.stack != [] && |a| == |m.stack[0].at| + 1 && a[..|m.stack[0].at|] == m.stack[0].at)
    ensures StepsTo(m, Push(m, a))
  {
    if |m.stack| < MAX_DEPTH - 1 {
      PushChained(m.stack, a);
    }
  }

  lemma PopKeeps(m: Machine)
    requires Sound(m)
    ensures StepsTo(m, ParentRemove(m))
  {
    if m.stack != [] {
      var stack := m.stack[1..];
      forall k | 0 <= k < |stack|
        ensures stack[k] == m.stack[k + 1]
        ensures stack[k].at == [] || ChildOf(stack, k)
      {
        if stack[k].at != [] {
          assert ChildOf(m.stack, k + 1);
        }
      }
    }
  }

  /** A put at the top of the stack. */
  lemma PutAtTop(m: Machine, request: Entry)
    requires Sound(m) && m.stack != []
    ensures var p := m.stack[0];
      var r := Put(m.tree, p.at, m.key, p.index, Some(request));
      r.Stored? ==>
        && Grows(m.tree, r.tree) && Sound(m.(tree := r.tree))
        && r.at in r.tree && r.tree[r.at] == request
        && |r.at| == |p.at| + 1 <= |m.stack| && r.at[..|p.at|] == p.at
  {
    hide Put, Chained, Live;
    var p := m.stack[0];
    TopFacts(m);
    PutKeeps(m.tree, p.at, m.key, p.index, Some(request));
    PutAddress(m.tree, p.at, m.key, p.index, Some(request));
    var r := Put(m.tree, p.at, m.key, p.index, Some(request));
    if r.Stored? {
      LiveGrows(m.stack, m.tree, r.tree);
      assert TypeOf(r.tree[[]]) == TypeOf(m.tree[[]]);
    }
  }

  lemma TopFacts(m: Machine)
    requires Sound(m) && m.stack != []
    ensures m.stack[0].at in m.tree && |m.stack[0].at| < |m.stack| <= MAX_DEPTH - 1
    ensures OnTree(m)
  {}

  lemma ParentAddKeeps(m: Machine, container: Entry)
    requires Sound(m) && !container.Leaf?
    ensures OnTree(m) && StepsTo(m, ParentAdd(m, container))
  {
    hide Put, Chained;
    if m.stack != [] {
      PutAtTop(m, container);
      var p := m.stack[0];
      var r := Put(m.tree, p.at, m.key, p.index, Some(container));
      if r.Stored? {
        AdvanceSound(m.(tree := r.tree));
        PushKeeps(Advance(m.(tree := r.tree)), r.at);
      }
    }
  }

  lemma NodeAddKeeps(m: Machine, parentType: Entry, text: string, quoted: bool, strtod: Strtod)
    requires Sound(m)
    ensures OnTree(m) && StepsTo(m, NodeAdd(m, parentType, text, quoted, strtod))
  {
    hide Put, Chained, Classify;
    if m.stack != [] {
      var v := Classify(text, quoted, strtod);
      if v.Some? {
        PutAtTop(m, Leaf(v.value));
        var p := m.stack[0];
        var r := Put(m.tree, p.at, m.key, p.index, Some(Leaf(v.value)));
        if r.Stored? {
          AdvanceSound(m.(tree := r.tree));
        }
      }
    }
  }

  lemma InModeKeeps(m: Machine, r: Outcome, mode: Mode)
    requires StepsTo(m, r)
    ensures StepsTo(m, InMode(r, mode))
  {
    hide Chained, Live, Grows;
  }

  /** The state and the key have no part in what is kept. */
  lemma MarkKeeps(m: Machine, mode: Mode, key: Option<string>)
    requires Sound(m)
    ensures StepsTo(m, Running(m.(mode := mode, key := key))) && Grows(m.tree, m.tree)
    ensures OnTree(m)
  {
    hide Chained;
  }

  lemma BlockKeeps(m: Machine, e: Event, strtod: Strtod)
    requires Sound(m) && m.mode == InBlock
    ensures OnTree(m) && StepsTo(m, Step(m, e, strtod))
  {
    hide ParentAdd, ParentRemove, Chained, Live, Grows, InMode;
    ParentAddKeeps(m, Dict);
    PopKeeps(m);
    InModeKeeps(m, ParentRemove(m), InSequence);
    MarkKeeps(m, InStream, m.key);
    if e.ScalarEvent? {
      MarkKeeps(m, InBlockContent, Some(e.text));
    }
  }

  /** The states in which a value is expected. */
  lemma ValueKeeps(m: Machine, e: Event, strtod: Strtod)
    requires Sound(m) && (m.mode == InBlockContent || m.mode == InSequence)
    ensures OnTree(m) && StepsTo(m, Step(m, e, strtod))
  {
    hide ParentAdd, NodeAdd, ParentRemove, Chained, Live, Grows, InMode;
    ParentAddKeeps(m, Dict);
    ParentAddKeeps(m, Array);
    PopKeeps(m);
    MarkKeeps(m, m.mode, m.key);
    InModeKeeps(m, ParentAdd(m, Dict), InBlock);
    InModeKeeps(m, ParentAdd(m, Array), InSequence);
    InModeKeeps(m, ParentRemove(m), InBlock);
    if e.ScalarEvent? {
      NodeAddKeeps(m, Dict, e.text, e.quoted, strtod);
      NodeAddKeeps(m, Array, e.text, e.quoted, strtod);
      InModeKeeps(m, NodeAdd(m, Dict, e.text, e.quoted, strtod), InBlock);
    }
  }

  /** No event, expected or not, breaks the stack, loses or retypes a node, or exceeds the height. */
  lemma StepKeeps(m: Machine, e: Event, strtod: Strtod)
    requires Sound(m)
    ensures OnTree(m) && StepsTo(m, Step(m, e, strtod))
  {
    if m.mode == InBlock {
      BlockKeeps(m, e, strtod);
    } else if m.mode == InBlockContent || m.mode == InSequence {
      ValueKeeps(m, e, strtod);
    } else {
      hide Push, Chained, Live, Grows, InMode;
      MarkKeeps(m, InStream, m.key);
      MarkKeeps(m, InDocument, m.key);
      MarkKeeps(m, AtStop, m.key);
      RootPush(m);
      InModeKeeps(m, Push(m, []), InBlock);
    }
  }

  lemma RootPush(m: Machine)
    requires Sound(m)
    ensures StepsTo(m, Push(m, [])) && Grows(m.tree, m.tree)
  {
    PushKeeps(m, []);
  }
}
