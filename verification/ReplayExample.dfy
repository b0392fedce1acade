/** A configuration that changes when it is initialised again. */
module ReplayExample {

  import opened Basics
  import opened CText
  import opened Convert
  import opened ConfigMap
  import opened ConfigTree
  import opened OptionTables
  import opened PathSpec
  import opened PathLaws
  import opened Yaml
  import opened YamlDocs
  import opened YamlMerge
  import opened YamlAsSets
  import opened Layers
  import opened Precedence

  /** Paths of one name below a dict root. */
  lemma TopLevel(t: Tree, name: string, v: Scalar)
    requires DictRoot(t) && PlainKey(name)
    ensures var n := [Key(name)];
      && GetPath(t, name) == (if n in t then Found(n) else NotFound)
      && (n !in t || TypeOf(t[n]) == TypeOf(Leaf(v)) ==>
            SetScalar(t, name, v) == Merged(true, t[n := Leaf(v)]) && DictRoot(t[n := Leaf(v)]))
  {
    hide Tokens;
    assert Join([name]) == name;
    TokensOfJoin([name]);
    assert [] + [Key(name)] == [Key(name)];
    SetKeeps(t, name, Some(Leaf(v)));
  }

  /** An integer with option -x, and a file, by default "d", that is read for the path "f". */
  const CMAP := [
    MapEntry(Some("x"), IntEntry, None, 120, None, None),
    MapEntry(Some("f"), YamlFileEntry, None, 0, None, Some("d"))
  ]

  /** "x: 2". */
  const DOC := Pair("x", false, ScalarDoc("2", false), NoPairs)

  /** The option -x 1. */
  const LINE := CommandLine(true, [Opt(120, Some("1"))], false)

  function OneFile(strtod: Strtod): World {
    World(map["d" := StreamEvents([DOC])], map[], strtod, true)
  }

  function Ending(x: int64): Tree {
    map[[] := Dict, [Key("x")] := Leaf(Int(x)), [Key("f")] := Leaf(Str("d"))]
  }

  lemma Numbers()
    ensures StringToInteger("1") == Integer(1) && StringToInteger("2") == Integer(2)
  {
    hide StringToInteger;
    assert Decimal(1) == "1" && Decimal(2) == "2";
    DecimalRoundTrip(1);
    DecimalRoundTrip(2);
  }

  lemma Tables()
    ensures Accepted(CMAP) && LongsUsable(CMAP) && HasRoom(CMAP) && OptText(CMAP) != ""
  {
    assert CMAP[..0] == [] && CMAP[..1][..0] == [];
    assert OptText(CMAP) == OptText(CMAP[..1]) + Group(CMAP[1]);
    assert OptText(CMAP[..1]) == OptText([]) + Group(CMAP[0]);
  }

  lemma OptionSetsOne(t: Tree, strtod: Strtod)
    requires DictRoot(t) && ([Key("x")] in t ==> TypeOf(t[[Key("x")]]) == IntType)
    ensures var t' := t[[Key("x")] := Leaf(Int(1))];
      && DictRoot(t')
      && ParseOpts(t, CMAP, LINE, OneFile(strtod)) == Merged(true, t')
  {
    hide SetScalar, GetPath, Accepted, LongsUsable, HasRoom, OptText, StringToInteger, DictRoot, Grows;
    assert WellFormed(t) by { DictIsWellFormed(t); }
    Tables();
    Numbers();
    TopLevel(t, "x", Int(1));
    var o := Opt(120, Some("1"));
    assert CMAP[..1][0] == CMAP[0];
    assert FindShort(CMAP[..1], 120) == Some(0);
    assert FindShort(CMAP, 120) == Some(0);
    assert HandleOption(t, CMAP[0], Some("1"), OneFile(strtod)) == SetScalar(t, "x", Int(1));
    OneSource(t, FromOption(o), OneFile(strtod));
    assert OptionSources([o]) == [FromOption(o)];
  }

  lemma DictIsWellFormed(t: Tree)
    requires DictRoot(t)
    ensures WellFormed(t)
  {}

  lemma OneSource(t: Tree, s: Source, w: World)
    requires WellFormed(t)
    ensures ApplyAll(t, CMAP, [s], w) == Apply(t, CMAP, s, w)
  {
    hide Apply;
    assert [s][..0] == [] && ApplyAll(t, CMAP, [], w) == Merged(true, t);
  }

  lemma FileMerges(t: Tree, strtod: Strtod)
    requires DictRoot(t) && [Key("x")] in t && TypeOf(t[[Key("x")]]) == IntType
    ensures var t1 := t[[Key("x")] := Leaf(Int(2))];
      WellFormed(t) && DictRoot(t1) && Read(t, StreamEvents([DOC]), strtod) == Merged(true, t1)
  {
    hide SetScalar, GetPath, StringToInteger, Read, StreamEvents, DictRoot, Grows, MergeAll;
    DictIsWellFormed(t);
    Numbers();
    TopLevel(t, "x", Int(2));
    assert [] + [Key("x")] == [Key("x")];
    var t1 := t[[Key("x")] := Leaf(Int(2))];
    assert MergeChild(t, [], Key("x"), ScalarDoc("2", false), strtod) == Merged(true, t1);
    MergeOne(t, t1, strtod);
    SupportedAllFollow(t, [DOC], strtod);
    ReadIsMerge(t, [DOC], strtod);
  }

  lemma FileProvided(t: Tree, strtod: Strtod)
    requires DictRoot(t) && [Key("f")] !in t && [Key("x")] in t && TypeOf(t[[Key("x")]]) == IntType
    ensures WellFormed(t)
    ensures Provide(t, YamlFileEntry, "f", "d", OneFile(strtod))
      == Merged(true, t[[Key("x")] := Leaf(Int(2))][[Key("f")] := Leaf(Str("d"))])
  {
    hide SetScalar, GetPath, Read, StreamEvents, DictRoot, Grows, WellFormed, Provide;
    var t1 := t[[Key("x")] := Leaf(Int(2))];
    ReplacedApart(t);
    FileMerges(t, strtod);
    DictIsWellFormed(t1);
    TopLevel(t1, "f", Str("d"));
    ReadThenSet(t, t1, "f", "d", OneFile(strtod));
  }

  lemma ReadThenSet(t: Tree, t1: Tree, path: string, name: string, w: World)
    requires WellFormed(t) && WellFormed(t1)
    requires name in w.files && Read(t, w.files[name], w.strtod) == Merged(true, t1)
    ensures Provide(t, YamlFileEntry, path, name, w) == SetScalar(t1, path, Str(name))
  {
    hide SetScalar, Read;
  }

  /** The default file is read when its path holds nothing, and replaces the value of x. */
  lemma FileReplaces(t: Tree, strtod: Strtod)
    requires DictRoot(t) && [Key("f")] !in t && [Key("x")] in t && TypeOf(t[[Key("x")]]) == IntType
    ensures DefaultStep(t, CMAP[1], OneFile(strtod))
      == Merged(true, t[[Key("x")] := Leaf(Int(2))][[Key("f")] := Leaf(Str("d"))])
  {
    hide SetScalar, GetPath, Provide, DictRoot, Grows, WellFormed, StreamEvents;
    FileProvided(t, strtod);
    TopLevel(t, "f", Str("d"));
  }

  lemma ReplacedApart(t: Tree)
    requires [Key("f")] !in t
    ensures [Key("f")] !in t[[Key("x")] := Leaf(Int(2))]
  {
    assert [Key("x")][0] != [Key("f")][0];
  }

  lemma MergeOne(t: Tree, t1: Tree, strtod: Strtod)
    requires MergePairs(t, [], DOC, strtod) == Merged(true, t1)
    ensures MergeAll(t, [DOC], strtod) == Merged(true, t1)
  {
    hide MergePairs;
    assert [DOC][1..] == [] && MergeAll(t1, [], strtod) == Merged(true, t1);
  }

  lemma FileFound(t: Tree, strtod: Strtod)
    requires DictRoot(t) && [Key("f")] in t && TypeOf(t[[Key("f")]]) == StrType
    ensures DefaultStep(t, CMAP[1], OneFile(strtod)) == Merged(true, t)
  {
    hide SetScalar, GetPath, Read;
    TopLevel(t, "f", Str("d"));
  }

  /** Environment and defaults after the command line. */
  lemma TheRest(t: Tree, strtod: Strtod)
    requires WellFormed(t)
    ensures ReadEnv(t, CMAP, OneFile(strtod)) == Merged(true, t)
    ensures ApplyDefaults(t, CMAP, OneFile(strtod)) == DefaultStep(t, CMAP[1], OneFile(strtod))
  {
    hide ApplyAll, ApplyDefaults, Grows;
    NoVariables(t, CMAP, 2, OneFile(strtod));
    TwoDefaults(t, CMAP, OneFile(strtod));
    assert DefaultStep(t, CMAP[0], OneFile(strtod)) == Merged(true, t);
  }

  lemma Phases(t: Tree, t1: Tree, t2: Tree, strtod: Strtod)
    requires WellFormed(t) && WellFormed(t1)
    requires ParseOpts(t, CMAP, LINE, OneFile(strtod)) == Merged(true, t1)
    requires DefaultStep(t1, CMAP[1], OneFile(strtod)) == Merged(true, t2)
    ensures Initialize(t, CMAP, LINE, true, OneFile(strtod)) == Merged(true, t2)
  {
    hide ParseOpts, ReadEnv, ApplyDefaults, DefaultStep, Grows, WellFormed;
    TheRest(t1, strtod);
  }

  /** The trees on the way. */
  lemma Trees(t1: Tree)
    requires t1 == EMPTY_DICT[[Key("x")] := Leaf(Int(1))]
    ensures [Key("x")] in t1 && t1[[Key("x")]] == Leaf(Int(1)) && [Key("f")] !in t1 && [Key("x")] !in EMPTY_DICT
    ensures t1[[Key("x")] := Leaf(Int(2))][[Key("f")] := Leaf(Str("d"))] == Ending(2)
    ensures [Key("x")] in Ending(2) && Ending(2)[[Key("x")]] == Leaf(Int(2))
    ensures Ending(2)[[Key("x")] := Leaf(Int(1))] == Ending(1)
    ensures [Key("f")] in Ending(1) && Ending(1)[[Key("f")]] == Leaf(Str("d"))
  {
    assert [Key("x")] != [Key("f")] && [Key("x")][0] != [Key("f")][0];
  }

  lemma EmptyIsDict()
    ensures DictRoot(EMPTY_DICT)
  {
    hide Tokens, Address, PlainStart;
    BracketPath();
  }

  lemma FirstRun(strtod: Strtod)
    ensures WellFormed(EMPTY_DICT)
    ensures Initialize(EMPTY_DICT, CMAP, LINE, true, OneFile(strtod)) == Merged(true, Ending(2))
  {
    hide ParseOpts, Initialize, DefaultStep, DictRoot, Ending, OneFile, StreamEvents, PlainStart, Tokens, Address;
    BracketPath();
    EmptyIsDict();
    var t1 := EMPTY_DICT[[Key("x")] := Leaf(Int(1))];
    Trees(t1);
    OptionSetsOne(EMPTY_DICT, strtod);
    FileReplaces(t1, strtod);
    Phases(EMPTY_DICT, t1, Ending(2), strtod);
  }

  lemma SecondRun(strtod: Strtod)
    ensures WellFormed(Ending(2))
    ensures Initialize(Ending(2), CMAP, LINE, true, OneFile(strtod)) == Merged(true, Ending(1))
  {
    hide ParseOpts, Initialize, DefaultStep, DictRoot, Ending, OneFile, StreamEvents;
    Trees(EMPTY_DICT[[Key("x")] := Leaf(Int(1))]);
    EndingIsDict(2);
    DictIsWellFormed(Ending(2));
    OptionSetsOne(Ending(2), strtod);
    DictIsWellFormed(Ending(1));
    FileFound(Ending(1), strtod);
    Phases(Ending(2), Ending(1), Ending(1), strtod);
  }

  /** The first run ends with the value of the file, the second with that of the option. */
  lemma FileOnlyOnce(strtod: Strtod)
    ensures WellFormed(EMPTY_DICT) && WellFormed(Ending(2)) && Ending(1) != Ending(2)
    ensures Initialize(EMPTY_DICT, CMAP, LINE, true, OneFile(strtod)) == Merged(true, Ending(2))
    ensures Initialize(Ending(2), CMAP, LINE, true, OneFile(strtod)) == Merged(true, Ending(1))
  {
    hide Initialize;
    FirstRun(strtod);
    SecondRun(strtod);
    assert Ending(1)[[Key("x")]] != Ending(2)[[Key("x")]];
  }

  lemma EndingIsDict(x: int64)
    ensures DictRoot(Ending(x))
  {
    forall a: Addr, s: Seg | a + [s] in Ending(x)
      ensures a == [] && s.Key?
    {
      assert |a + [s]| == 1 && (a + [s])[0] == s;
    }
  }
}
