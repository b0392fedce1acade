/**
 * The values that options, variables and defaults give to their entries, in terms of the texts alone:
 * strings as they are, integers digit by digit, floats as the C library reads them, booleans by the
 * six words.
 */
module ValueLaws {

  import opened Basics
  import opened CText
  import opened Convert
  import opened Numerals
  import opened ConfigMap
  import opened ConfigTree
  import opened PathSpec
  import opened PathLaws
  import opened Yaml
  import opened YamlDocs
  import OptionTables
  import opened Layers
  import opened DefaultLaws
  import opened Precedence

  // ----- texts and values

  /** v is what an entry of this kind makes of a text. */
  ghost predicate Denotes(kind: EntryType, text: string, v: Scalar, strtod: Strtod) {
    match kind
    case StrEntry | YamlFileEntry => v == Str(text)
    case IntEntry => v.Int? && IsInteger(text, v.integer)
    case FloatEntry => v.Float? && strtod(text) == FloatBits(v.bits)
    case BoolEntry =>
      && v.Bool?
      && exists w :: w in (if v.flag then {"true", "yes", "on"} else {"false", "no", "off"}) && StartsWith(text, w)
    case UsageEntry | OtherEntry => false
  }

  lemma IntegerValue(text: string, i: int64)
    ensures StringToInteger(text) == Integer(i) <==> IsInteger(text, i)
  {
    hide StringToInteger, IsInteger;
    IntegerExactly(text);
    if StringToInteger(text) == Integer(i) {
      var v :| IsInteger(text, v);
      assert v == i;
    }
  }

  /** Every text that denotes a value is converted to it, and no other text is converted. */
  lemma ValueExactly(kind: EntryType, text: string, v: Scalar, strtod: Strtod)
    ensures ValueFor(kind, text, strtod) == Some(v) <==> Denotes(kind, text, v, strtod)
  {
    hide StringToInteger, StringToBool, IsInteger;
    if v.Int? {
      IntegerValue(text, v.integer);
    }
    BoolExactly(text);
  }

  /** A decimal numeral in 64 bits is the integer it shows. */
  lemma DecimalDenotes(i: int64, strtod: Strtod)
    ensures Denotes(IntEntry, Decimal(i), Int(i), strtod)
  {
    hide StringToInteger, IsInteger;
    DecimalRoundTrip(i);
    IntegerValue(Decimal(i), i);
  }

  // ----- one source

  /** The entry's address holds a value that the text denotes. */
  ghost predicate HoldsText(t: Tree, n: Option<Addr>, kind: EntryType, text: string, strtod: Strtod) {
    n.Some? && n.value in t && t[n.value].Leaf? && Denotes(kind, text, t[n.value].value, strtod)
  }

  /** A text that is provided for an entry is there afterwards; one that denotes nothing is refused. */
  lemma TextHolds(t: Tree, kind: EntryType, path: string, text: string, w: World)
    requires WellFormed(t)
    ensures var r := Provide(t, kind, path, text, w);
      && (r.ok ==> HoldsText(r.tree, Address(t[[]], Tokens(path)), kind, text, w.strtod))
      && ((forall v :: !Denotes(kind, text, v, w.strtod)) ==> r == Merged(false, t))
  {
    hide ReadFile, Denotes, ValueFor, Tokens, Address, SetPath, GetPath, PlainStart;
    var o := ValueFor(kind, text, w.strtod);
    if o.Some? {
      ValueExactly(kind, text, o.value, w.strtod);
      var t1 := if kind.YamlFileEntry? then ReadFile(t, text, w).tree else t;
      if Provide(t, kind, path, text, w).ok {
        SetThenGet(t1, path, Leaf(o.value));
        SameAddress(t, t1, path);
      }
    }
  }

  lemma SameAddress(t: Tree, t1: Tree, path: string)
    requires WellFormed(t) && Extends(t, t1)
    ensures [] in t1
    ensures Address(t1[[]], Tokens(path)).Some? ==> Address(t[[]], Tokens(path)) == Address(t1[[]], Tokens(path))
  {
    hide Tokens;
    assert TypeOf(t1[[]]) == TypeOf(t[[]]);
    AddressNeedsContainer(t1[[]], Tokens(path));
  }

  /** What an option gives: a flag without an argument is set, and an argument counts by its text. */
  ghost predicate OptionHolds(t: Tree, n: Option<Addr>, kind: EntryType, arg: Option<string>, strtod: Strtod) {
    match arg
    case Some(text) => HoldsText(t, n, kind, text, strtod)
    case None => kind.BoolEntry? && n.Some? && n.value in t && t[n.value] == Leaf(Bool(true))
  }

  lemma OneShort(cmap: seq<MapEntry>, i: nat)
    requires OptionTables.Accepted(cmap) && i < |cmap| && cmap[i].optsShort != 0
    ensures cmap[i].optsShort > 0 && FindShort(cmap, cmap[i].optsShort) == Some(i)
  {}

  /** After an option, its entry's address holds what it has given; only usage leaves the tree alone. */
  lemma OptionGives(t: Tree, cmap: seq<MapEntry>, i: nat, arg: Option<string>, w: World)
    requires WellFormed(t) && OptionTables.Accepted(cmap) && i < |cmap| && cmap[i].optsShort > 0
    requires OptStep(t, cmap, Opt(cmap[i].optsShort, arg), w).ok
    ensures var e, t' := cmap[i], OptStep(t, cmap, Opt(cmap[i].optsShort, arg), w).tree;
      if e.kind.UsageEntry? then t' == t
      else e.path.Some? && OptionHolds(t', Address(t[[]], Tokens(e.path.value)), e.kind, arg, w.strtod)
  {
    hide Provide, Tokens, Address, GetPath, SetPath, PlainStart, HoldsText;
    var e := cmap[i];
    OneShort(cmap, i);
    if !e.kind.UsageEntry? && e.path.Some? {
      match arg {
        case Some(text) => TextHolds(t, e.kind, e.path.value, text, w);
        case None =>
          if e.kind.BoolEntry? {
            SetThenGet(t, e.path.value, Leaf(Bool(true)));
          }
      }
    }
  }

  /** After a variable that is set, its entry's address holds what its text denotes. */
  lemma VariableGives(t: Tree, e: MapEntry, w: World)
    requires WellFormed(t) && e.env.Some? && EnvStep(t, e, w).ok
    ensures e.env.value !in w.env ==> EnvStep(t, e, w).tree == t
    ensures e.env.value in w.env ==>
      && e.path.Some?
      && HoldsText(EnvStep(t, e, w).tree, Address(t[[]], Tokens(e.path.value)), e.kind, w.env[e.env.value], w.strtod)
  {
    hide Provide, Tokens, Address, HoldsText;
    if e.path.Some? && e.env.value in w.env {
      TextHolds(t, e.kind, e.path.value, w.env[e.env.value], w);
    }
  }

  /** After a default whose path get has not found, its entry's address holds what its text denotes. */
  lemma DefaultGives(t: Tree, e: MapEntry, w: World)
    requires WellFormed(t) && e.default.Some? && DefaultStep(t, e, w).ok
    ensures e.path.Some?
    ensures var t' := DefaultStep(t, e, w).tree;
      if GetPath(t, e.path.value) == NotFound
      then HoldsText(t', Address(t[[]], Tokens(e.path.value)), e.kind, e.default.value, w.strtod)
      else t' == t
  {
    hide Provide, Tokens, Address, GetPath, HoldsText;
    if e.path.Some? {
      TextHolds(t, e.kind, e.path.value, e.default.value, w);
    }
  }

  // ----- initialisation

  /** What an option's argument denotes for an entry; a flag needs none. */
  ghost predicate ArgDenotes(kind: EntryType, arg: Option<string>, v: Scalar, strtod: Strtod) {
    match arg
    case Some(text) => Denotes(kind, text, v, strtod)
    case None => kind.BoolEntry? && v == Bool(true)
  }

  /** The last option for entry i is the k-th. */
  ghost predicate LastOption(cmap: seq<MapEntry>, opts: seq<Opt>, i: nat, k: nat) {
    && i < |cmap| && k < |opts| && opts[k].c == cmap[i].optsShort
    && forall j :: k < j < |opts| ==> opts[j].c != cmap[i].optsShort
  }

  ghost predicate NoOption(cmap: seq<MapEntry>, opts: seq<Opt>, i: nat) {
    i < |cmap| && (cmap[i].optsShort != 0 ==> forall j :: 0 <= j < |opts| ==> opts[j].c != cmap[i].optsShort)
  }

  lemma OtherOption(cmap: seq<MapEntry>, o: Opt, i: nat, w: World)
    requires i < |cmap| && (o.c != cmap[i].optsShort || o.c == 0)
    ensures Offer(cmap, FromOption(o), w).Some? ==> Offer(cmap, FromOption(o), w).value.entry != i
  {
    hide ValueFor;
  }

  lemma OwnOption(t: Tree, cmap: seq<MapEntry>, o: Opt, i: nat, w: World)
    requires WellFormed(t) && OptionTables.Accepted(cmap) && i < |cmap| && !cmap[i].kind.UsageEntry?
    requires cmap[i].optsShort != 0 && o.c == cmap[i].optsShort && OptStep(t, cmap, o, w).ok
    ensures var offer := Offer(cmap, FromOption(o), w);
      offer.Some? && offer.value.entry == i && ArgDenotes(cmap[i].kind, o.arg, offer.value.value, w.strtod)
  {
    hide ValueFor, SetScalar, Denotes, ReadFile;
    OneShort(cmap, i);
    if o.arg.Some? {
      var v := ValueFor(cmap[i].kind, o.arg.value, w.strtod);
      if v.Some? {
        ValueExactly(cmap[i].kind, o.arg.value, v.value, w.strtod);
      }
    }
  }

  lemma OptionPrefix(opts: seq<Opt>)
    requires opts != []
    ensures OptionSources(opts)[..|opts| - 1] == OptionSources(opts[..|opts| - 1])
  {}

  /** The last option of an entry is its last offer. */
  lemma {:induction false} LastOptionOffers(t: Tree, cmap: seq<MapEntry>, opts: seq<Opt>, i: nat, k: nat, w: World)
    requires WellFormed(t) && OptionTables.Accepted(cmap) && i < |cmap| && !cmap[i].kind.UsageEntry?
    requires cmap[i].optsShort != 0 && LastOption(cmap, opts, i, k) && ApplyAll(t, cmap, OptionSources(opts), w).ok
    ensures var v := LastOffer(cmap, OptionSources(opts), i, w);
      v.Some? && ArgDenotes(cmap[i].kind, opts[k].arg, v.value, w.strtod)
    decreases |opts|
  {
    hide Offer, ArgDenotes, OptStep, OptionTables.Accepted, Grows;
    var n := |opts| - 1;
    OptionPrefix(opts);
    var t1 := ApplyAll(t, cmap, OptionSources(opts[..n]), w).tree;
    if k == n {
      OwnOption(t1, cmap, opts[n], i, w);
    } else {
      OtherOption(cmap, opts[n], i, w);
      LastOptionOffers(t, cmap, opts[..n], i, k, w);
    }
  }

  lemma {:induction false} NoOptionOffers(cmap: seq<MapEntry>, opts: seq<Opt>, i: nat, w: World)
    requires NoOption(cmap, opts, i)
    ensures LastOffer(cmap, OptionSources(opts), i, w) == None
    decreases |opts|
  {
    hide Offer;
    if opts != [] {
      var n := |opts| - 1;
      OptionPrefix(opts);
      OtherOption(cmap, opts[n], i, w);
      NoOptionOffers(cmap, opts[..n], i, w);
    }
  }

  lemma OwnVariable(t: Tree, e: MapEntry, w: World)
    requires WellFormed(t) && e.env.Some? && e.env.value in w.env && EnvStep(t, e, w).ok
    ensures ValueFor(e.kind, w.env[e.env.value], w.strtod).Some?
  {
    hide ValueFor, SetScalar, ReadFile;
  }

  lemma {:induction false} VariableOffers(t: Tree, cmap: seq<MapEntry>, n: nat, i: nat, w: World)
    requires WellFormed(t) && i < n <= |cmap| && cmap[i].env.Some? && cmap[i].env.value in w.env
    requires ApplyAll(t, cmap, EnvSources(n), w).ok
    ensures EnvValue(cmap, i, w).Some?
    ensures Denotes(cmap[i].kind, w.env[cmap[i].env.value], EnvValue(cmap, i, w).value, w.strtod)
    decreases n
  {
    hide EnvStep, Grows, Denotes, ValueFor;
    assert EnvSources(n)[..n - 1] == EnvSources(n - 1);
    if i == n - 1 {
      OwnVariable(ApplyAll(t, cmap, EnvSources(n - 1), w).tree, cmap[i], w);
      var text := w.env[cmap[i].env.value];
      ValueExactly(cmap[i].kind, text, ValueFor(cmap[i].kind, text, w.strtod).value, w.strtod);
    } else {
      VariableOffers(t, cmap, n - 1, i, w);
    }
  }

  /** What a successful initialisation has applied. */
  lemma InitializeParts(t: Tree, cmap: seq<MapEntry>, line: CommandLine, valid: bool, w: World)
    requires WellFormed(t) && Initialize(t, cmap, line, valid, w).ok
    ensures var r := ApplyAll(t, cmap, OptionSources(Heard(cmap, line)), w);
      r.ok && ApplyAll(r.tree, cmap, EnvSources(|cmap|), w).ok
    ensures Heard(cmap, line) != [] ==> OptionTables.Accepted(cmap)
  {
    hide Apply, ApplyAll, Grows;
    hide OptionTables.Accepted, OptionTables.LongsUsable, OptionTables.HasRoom, OptionTables.OptText;
    NoSources(t, cmap, w);
  }

  /** After a successful initialisation, an entry whose variable is set holds what its text denotes. */
  lemma InitializeByVariable(t: Tree, cmap: seq<MapEntry>, line: CommandLine, valid: bool, w: World, i: nat)
    requires ArrayFree(t) && Distinct(cmap) && i < |cmap| && !cmap[i].kind.UsageEntry?
    requires Initialize(t, cmap, line, valid, w).ok && cmap[i].env.Some? && cmap[i].env.value in w.env
    ensures exists v ::
      && At(Initialize(t, cmap, line, valid, w).tree, AddrOf(cmap[i])) == Some(Leaf(v))
      && Denotes(cmap[i].kind, w.env[cmap[i].env.value], v, w.strtod)
  {
    hide Initialize, ApplyAll, AddrOf, Distinct, EnvValue, Heard, Overgrown, LastOffer, DefaultValue, Denotes, Grows;
    InitializeParts(t, cmap, line, valid, w);
    var t1 := ApplyAll(t, cmap, OptionSources(Heard(cmap, line)), w).tree;
    VariableOffers(t1, cmap, |cmap|, i, w);
    InitializeWinner(t, cmap, line, valid, w, i);
  }

  /** Without its variable, it holds what the argument of its last option denotes. */
  lemma InitializeByOption(t: Tree, cmap: seq<MapEntry>, line: CommandLine, valid: bool, w: World, i: nat, k: nat)
    requires ArrayFree(t) && Distinct(cmap) && i < |cmap| && !cmap[i].kind.UsageEntry?
    requires Initialize(t, cmap, line, valid, w).ok && !(cmap[i].env.Some? && cmap[i].env.value in w.env)
    requires cmap[i].optsShort != 0 && LastOption(cmap, Heard(cmap, line), i, k)
    ensures exists v ::
      && At(Initialize(t, cmap, line, valid, w).tree, AddrOf(cmap[i])) == Some(Leaf(v))
      && ArgDenotes(cmap[i].kind, Heard(cmap, line)[k].arg, v, w.strtod)
  {
    hide Initialize, ApplyAll, AddrOf, Distinct, Heard, Overgrown, LastOffer, DefaultValue, Denotes, Grows;
    InitializeParts(t, cmap, line, valid, w);
    LastOptionOffers(t, cmap, Heard(cmap, line), i, k, w);
    InitializeWinner(t, cmap, line, valid, w, i);
  }

  /**
   * Without variable and option, it holds what was there before; and where nothing was, and nothing
   * else has been put below, what the text of its default denotes.
   */
  lemma InitializeByDefault(t: Tree, cmap: seq<MapEntry>, line: CommandLine, valid: bool, w: World, i: nat)
    requires ArrayFree(t) && Distinct(cmap) && i < |cmap| && !cmap[i].kind.UsageEntry?
    requires Initialize(t, cmap, line, valid, w).ok && !(cmap[i].env.Some? && cmap[i].env.value in w.env)
    requires NoOption(cmap, Heard(cmap, line), i)
    ensures var n, t' := AddrOf(cmap[i]), Initialize(t, cmap, line, valid, w).tree;
      && (n in t ==> At(t', n) == Some(t[n]))
      && (n !in t && !Overgrown(cmap, line, n, w) && cmap[i].default.Some? ==>
            exists v :: At(t', n) == Some(Leaf(v)) && Denotes(cmap[i].kind, cmap[i].default.value, v, w.strtod))
      && (n !in t && !Overgrown(cmap, line, n, w) && cmap[i].default.None? ==> n !in t')
  {
    hide Initialize, ApplyAll, AddrOf, Heard, Overgrown, LastOffer, DefaultValue, Denotes, Grows, NoOption, ValueFor;
    NoOptionOffers(cmap, Heard(cmap, line), i, w);
    InitializeWinner(t, cmap, line, valid, w, i);
    if cmap[i].default.Some? {
      DefaultTaken(t, cmap, line, valid, w, i);
    }
    DefaultText(cmap[i], w);
  }

  /** The value of a default is what its text denotes. */
  lemma DefaultText(e: MapEntry, w: World)
    ensures DefaultValue(e, w).Some? ==>
      e.default.Some? && Denotes(e.kind, e.default.value, DefaultValue(e, w).value, w.strtod)
  {
    hide ValueFor, Denotes;
    if DefaultValue(e, w).Some? {
      ValueExactly(e.kind, e.default.value, DefaultValue(e, w).value, w.strtod);
    }
  }

  /** After success, an entry with a default is there, so that its default has had a value. */
  lemma DefaultTaken(t: Tree, cmap: seq<MapEntry>, line: CommandLine, valid: bool, w: World, i: nat)
    requires ArrayFree(t) && Distinct(cmap) && i < |cmap| && !cmap[i].kind.UsageEntry?
    requires Initialize(t, cmap, line, valid, w).ok && cmap[i].default.Some?
    ensures AddrOf(cmap[i]) in Initialize(t, cmap, line, valid, w).tree
  {
    OverridingSources(cmap, line);
    hide Initialize, ApplyAll, AddrOf, Overriding, Heard, Expected, Grows, Reaches, DefaultReaches, Distinct;
    hide GetPath, Tokens, PlainStart, NameOnly;
    EntryIsNamed(cmap, i);
    InitializePhases(t, cmap, line, valid, w);
    var t1 := ApplyAll(t, cmap, Overriding(cmap, line), w).tree;
    Overrides(t, cmap, Overriding(cmap, line), i, w);
    DefaultsExpected(t1, cmap, |cmap|, i, w);
    NamedIsPlain(t1[[]], cmap[i].path.value);
    DefaultsThenGet(t1, cmap, w, i);
    AddrIsNames(cmap[i]);
    GetNamed(ApplyDefaults(t1, cmap, w).tree, cmap[i].path.value);
  }

  lemma EntryIsNamed(cmap: seq<MapEntry>, i: nat)
    requires Distinct(cmap) && i < |cmap| && !cmap[i].kind.UsageEntry?
    ensures cmap[i].path.Some? && NameOnly(cmap[i].path.value)
  {}

  lemma NamedIsPlain(root: Entry, path: string)
    requires NameOnly(path)
    ensures PlainStart(root, Tokens(path))
  {
    hide Tokens;
    assert Tokens(path)[0] in Tokens(path);
  }
}
