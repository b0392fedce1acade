/** The tables that src/opts.c builds for `getopt_long` from the config map. */
module OptionTables {

  import opened Basics
  import opened ConfigMap

  /** SCONF_OPTS_INDEX_SIZE and SCONF_OPTS_LONG_OPTS_SIZE, with a signed `char`. */
  const TABLE_SIZE := 128

  const OPTSTRING_SIZE := 256

  // ----- the index of short options

  /** Short options are positive, come with a path unless they ask for usage, and differ from each other. */
  ghost predicate Accepted(cmap: seq<MapEntry>) {
    forall i :: 0 <= i < |cmap| && cmap[i].optsShort != 0 ==>
      && cmap[i].optsShort > 0
      && (cmap[i].path.Some? || cmap[i].kind.UsageEntry?)
      && forall j :: 0 <= j < i ==> cmap[j].optsShort != cmap[i].optsShort
  }

  /** Each slot points to the entry with that short option. */
  ghost predicate Indexes(index: seq<Option<nat>>, cmap: seq<MapEntry>) {
    && |index| == TABLE_SIZE
    && (forall i :: 0 <= i < |cmap| && cmap[i].optsShort > 0 ==> index[cmap[i].optsShort] == Some(i))
    && (forall c :: 0 <= c < TABLE_SIZE && index[c].Some? ==>
          index[c].value < |cmap| && cmap[index[c].value].optsShort == c != 0)
  }

  /** An entry that cannot be taken into the index. */
  lemma NotTakenIn(cmap: seq<MapEntry>, n: nat, index: seq<Option<nat>>)
    requires n < |cmap| && Indexes(index, cmap[..n])
    ensures var e := cmap[n];
      e.optsShort < 0 || (e.optsShort > 0 && (index[e.optsShort].Some? || (e.path.None? && !e.kind.UsageEntry?))) ==>
        !Accepted(cmap)
  {
    var e := cmap[n];
    if e.optsShort > 0 && index[e.optsShort].Some? {
      var i := index[e.optsShort].value;
      assert cmap[..n][i].optsShort == e.optsShort && cmap[i] == cmap[..n][i];
    }
  }

  /** An entry that is taken into the index, or has nothing to put there. */
  lemma TakenIn(cmap: seq<MapEntry>, n: nat, index: seq<Option<nat>>)
    requires n < |cmap| && Accepted(cmap[..n]) && Indexes(index, cmap[..n])
    requires var e := cmap[n];
      e.optsShort == 0 || (e.optsShort > 0 && index[e.optsShort].None? && (e.path.Some? || e.kind.UsageEntry?))
    ensures var e := cmap[n];
      && Accepted(cmap[..n + 1])
      && Indexes(if e.optsShort == 0 then index else index[e.optsShort := Some(n)], cmap[..n + 1])
  {
    forall i | 0 <= i < n
      ensures cmap[..n + 1][i] == cmap[..n][i]
    {
    }
    assert cmap[..n + 1][n] == cmap[n];
  }

  /** `sconf_short_opts_index_create`. */
  method CreateIndex(cmap: seq<MapEntry>, index: array<Option<nat>>) returns (ok: bool)
    requires index.Length == TABLE_SIZE && forall c :: 0 <= c < TABLE_SIZE ==> index[c] == None
    modifies index
    ensures ok <==> Accepted(cmap)
    ensures ok <==> ShortsFit(cmap)
    ensures ok ==> Indexes(index[..], cmap)
  {
    AcceptedMeans(cmap);
    hide Accepted, ShortsFit;
    EmptyAccepted();
    var n := 0;
    while n < |cmap|
      invariant n <= |cmap|
      invariant Accepted(cmap[..n]) && Indexes(index[..], cmap[..n])
    {
      hide Indexes;
      var entry := cmap[n];
      NotTakenIn(cmap, n, index[..]);
      if entry.optsShort == 0 {
        TakenIn(cmap, n, index[..]);
        n := n + 1;
        continue;
      }
      if entry.optsShort < 0 {
        return false;
      }
      if index[entry.optsShort].Some? {
        return false;
      }
      if entry.path.None? && !entry.kind.UsageEntry? {
        return false;
      }
      TakenIn(cmap, n, index[..]);
      ghost var before := index[..];
      index[entry.optsShort] := Some(n);
      assert index[..] == before[entry.optsShort := Some(n)];
      n := n + 1;
    }
    assert cmap[..n] == cmap;
    AcceptedMeans(cmap);
    return true;
  }

  /** No short option is negative or used twice, and only usage goes without a path. */
  ghost predicate ShortsFit(cmap: seq<MapEntry>) {
    forall i :: 0 <= i < |cmap| && cmap[i].optsShort != 0 ==>
      && cmap[i].optsShort > 0
      && (cmap[i].path.None? ==> cmap[i].kind == UsageEntry)
      && forall j :: 0 <= j < i ==> cmap[j].optsShort != cmap[i].optsShort
  }

  lemma AcceptedMeans(cmap: seq<MapEntry>)
    ensures Accepted(cmap) <==> ShortsFit(cmap)
  {}

  lemma EmptyAccepted()
    ensures Accepted([])
  {}

  // ----- the table of long options

  datatype HasArg = NoArgument | RequiredArgument | OptionalArgument

  /** `struct option`; the all-zero entry ends the table. */
  datatype LongOpt = LongOpt(name: Option<string>, val: int, hasArg: HasArg)

  const ZERO_OPT := LongOpt(None, 0, NoArgument)

  datatype LongResult = LongOk | NoShortOption | ArrayFull | UnsupportedType

  function HasArgOf(kind: EntryType): Option<HasArg> {
    match kind
    case StrEntry | IntEntry | FloatEntry | YamlFileEntry => Some(RequiredArgument)
    case BoolEntry => Some(OptionalArgument)
    case UsageEntry => Some(NoArgument)
    case OtherEntry => None
  }

  /** The positions of the entries with a long option. */
  function Longs(cmap: seq<MapEntry>): (longs: seq<nat>)
    ensures forall k :: 0 <= k < |longs| ==> longs[k] < |cmap| && cmap[longs[k]].optsLong.Some?
    ensures forall j, k :: 0 <= j < k < |longs| ==> longs[j] < longs[k]
  {
    if cmap == [] then []
    else
      var n := |cmap| - 1;
      Longs(cmap[..n]) + if cmap[n].optsLong.Some? then [n] else []
  }

  function LongOptOf(entry: MapEntry): LongOpt {
    LongOpt(entry.optsLong, if entry.optsShort < 0 then entry.optsShort + 256 else entry.optsShort,
            if HasArgOf(entry.kind).Some? then HasArgOf(entry.kind).value else NoArgument)
  }

  /** Every long option goes with a short one, and with a type that options can have. */
  ghost predicate LongsUsable(cmap: seq<MapEntry>) {
    forall i :: 0 <= i < |cmap| && cmap[i].optsLong.Some? ==> cmap[i].optsShort != 0 && HasArgOf(cmap[i].kind).Some?
  }

  /** Distinct numbers between 1 and n are at most n. */
  lemma {:induction false} Pigeonhole(s: seq<int>, n: nat)
    requires forall k :: 0 <= k < |s| ==> 1 <= s[k] <= n
    requires forall j, k :: 0 <= j < k < |s| ==> s[j] != s[k]
    ensures |s| <= n
    decreases n
  {
    assert s != [] ==> 1 <= s[0] <= n;
    if n in s {
      var k :| 0 <= k < |s| && s[k] == n;
      Pigeonhole(s[..k] + s[k + 1..], n - 1);
    } else if n > 0 {
      Pigeonhole(s, n - 1);
    }
  }

  /** With an accepted index, at most 127 entries can have a long option. */
  lemma FewLongs(cmap: seq<MapEntry>)
    requires Accepted(cmap) && forall i :: 0 <= i < |cmap| && cmap[i].optsLong.Some? ==> cmap[i].optsShort != 0
    ensures |Longs(cmap)| <= 127
  {
    var longs := Longs(cmap);
    var shorts := seq(|longs|, (k: nat) requires k < |longs| => cmap[longs[k]].optsShort as int);
    forall j, k | 0 <= j < k < |shorts|
      ensures shorts[j] != shorts[k]
    {
      assert longs[j] < longs[k];
      assert cmap[longs[k]].optsShort > 0;
    }
    Pigeonhole(shorts, TABLE_SIZE - 1);
  }

  /** The table entry of a long option, written at i. */
  method WriteLong(entry: MapEntry, table: array<LongOpt>, i: nat) returns (ok: bool)
    requires i < table.Length
    modifies table
    ensures ok <==> HasArgOf(entry.kind).Some?
    ensures ok ==> table[i] == LongOptOf(entry)
    ensures forall k :: 0 <= k < table.Length && k != i ==> table[k] == old(table[k])
  {
    var val := if entry.optsShort < 0 then entry.optsShort + 256 else entry.optsShort;
    table[i] := LongOpt(entry.optsLong, val, NoArgument);
    match entry.kind {
      case StrEntry | IntEntry | FloatEntry | YamlFileEntry =>
        table[i] := table[i].(hasArg := RequiredArgument);
      case BoolEntry =>
        table[i] := table[i].(hasArg := OptionalArgument);
      case UsageEntry =>
        table[i] := table[i].(hasArg := NoArgument);
      case OtherEntry =>
        return false;
    }
    return true;
  }

  /**
   * What `getopt_long` is told of an entry: the name of its long option, its short option as an
   * unsigned character, and an argument for every kind but usage, which a flag may leave out.
   */
  predicate Tells(o: LongOpt, entry: MapEntry) {
    && o.name == entry.optsLong
    && (entry.optsShort >= 0 ==> o.val == entry.optsShort)
    && (entry.optsShort < 0 ==> o.val == 256 + entry.optsShort)
    && (o.hasArg.RequiredArgument? <==>
          entry.kind.StrEntry? || entry.kind.IntEntry? || entry.kind.FloatEntry? || entry.kind.YamlFileEntry?)
    && (o.hasArg.OptionalArgument? <==> entry.kind.BoolEntry?)
  }

  lemma LongOptTells(entry: MapEntry)
    ensures Tells(LongOptOf(entry), entry)
  {}

  /** No long option is left out. */
  lemma {:induction false} LongsComplete(cmap: seq<MapEntry>, i: nat)
    requires i < |cmap| && cmap[i].optsLong.Some?
    ensures i in Longs(cmap)
    decreases |cmap|
  {
    var n := |cmap| - 1;
    if i < n {
      LongsComplete(cmap[..n], i);
    }
  }

  /** The table tells of each long option, in the order of the map. */
  ghost predicate TellsAll(table: seq<LongOpt>, cmap: seq<MapEntry>, longs: seq<nat>) {
    && |longs| <= |table|
    && (forall j, k :: 0 <= j < k < |longs| ==> longs[j] < longs[k])
    && (forall i :: i in longs <==> 0 <= i < |cmap| && cmap[i].optsLong.Some?)
    && (forall k :: 0 <= k < |longs| ==> longs[k] < |cmap| && Tells(table[k], cmap[longs[k]]))
    && (forall k :: |longs| <= k < |table| ==> table[k] == LongOpt(None, 0, NoArgument))
  }

  lemma TabulatedTells(table: seq<LongOpt>, cmap: seq<MapEntry>)
    requires Tabulates(table, cmap)
    ensures TellsAll(table, cmap, Longs(cmap))
  {
    var longs := Longs(cmap);
    forall i
      ensures i in longs <==> 0 <= i < |cmap| && cmap[i].optsLong.Some?
    {
      if 0 <= i < |cmap| && cmap[i].optsLong.Some? {
        LongsComplete(cmap, i);
      }
    }
    forall k | 0 <= k < |longs|
      ensures Tells(table[k], cmap[longs[k]])
    {
      LongOptTells(cmap[longs[k]]);
    }
  }

  /** The table holds the long options of the map, and behind them nothing but zero entries. */
  ghost predicate Tabulates(table: seq<LongOpt>, cmap: seq<MapEntry>) {
    && |table| == TABLE_SIZE && |Longs(cmap)| <= TABLE_SIZE
    && (forall k :: 0 <= k < |Longs(cmap)| ==> table[k] == LongOptOf(cmap[Longs(cmap)[k]]))
    && (forall k :: |Longs(cmap)| <= k < TABLE_SIZE ==> table[k] == ZERO_OPT)
  }

  lemma LongsNext(cmap: seq<MapEntry>, n: nat)
    requires n < |cmap|
    ensures Longs(cmap[..n + 1]) == Longs(cmap[..n]) + if cmap[n].optsLong.Some? then [n] else []
    ensures
      LongsUsable(cmap[..n]) && (cmap[n].optsLong.Some? ==> cmap[n].optsShort != 0 && HasArgOf(cmap[n].kind).Some?) ==>
        LongsUsable(cmap[..n + 1])
    ensures cmap[n].optsLong.Some? && (cmap[n].optsShort == 0 || HasArgOf(cmap[n].kind).None?) ==> !LongsUsable(cmap)
  {
    assert cmap[..n + 1][..n] == cmap[..n] && cmap[..n + 1][n] == cmap[n];
  }

  lemma TabulatesNext(table: seq<LongOpt>, table': seq<LongOpt>, cmap: seq<MapEntry>, n: nat)
    requires n < |cmap| && Tabulates(table, cmap[..n])
    ensures cmap[n].optsLong.None? ==> Tabulates(table, cmap[..n + 1])
    ensures var i := |Longs(cmap[..n])|;
      cmap[n].optsLong.Some? && i < TABLE_SIZE && table' == table[i := LongOptOf(cmap[n])] ==>
        Tabulates(table', cmap[..n + 1])
  {
    hide LongOptOf;
    LongsNext(cmap, n);
  }

  /**
   * `sconf_opts_create_long_opts`. Once the index of short options has been accepted, the table
   * cannot be full, so that it always keeps its terminating zero entry.
   */
  method CreateLongOpts(cmap: seq<MapEntry>, table: array<LongOpt>) returns (r: LongResult)
    requires table.Length == TABLE_SIZE && forall k :: 0 <= k < TABLE_SIZE ==> table[k] == ZERO_OPT
    modifies table
    ensures Accepted(cmap) ==> r != ArrayFull && (r == LongOk <==> LongsUsable(cmap))
    ensures (r == LongOk ==> LongsFit(cmap)) && (Accepted(cmap) && LongsFit(cmap) ==> r == LongOk)
    ensures r == LongOk ==> LongsUsable(cmap) && Tabulates(table[..], cmap)
    ensures r == LongOk ==> TellsAll(table[..], cmap, Longs(cmap))
    ensures r == LongOk && Accepted(cmap) ==> table[TABLE_SIZE - 1] == ZERO_OPT
  {
    UsableMeans(cmap);
    hide Longs, LongOptOf, HasArgOf, LongsUsable, LongsFit, Accepted, TellsAll;
    NoLongs();
    var i := 0;
    var n := 0;
    while n < |cmap|
      invariant n <= |cmap|
      invariant LongsUsable(cmap[..n]) && i == |Longs(cmap[..n])|
      invariant Tabulates(table[..], cmap[..n])
    {
      var entry := cmap[n];
      LongsNext(cmap, n);
      TabulatesNext(table[..], table[..], cmap, n);
      if entry.optsLong.None? {
        n := n + 1;
        continue;
      }
      if entry.optsShort == 0 {
        return NoShortOption;
      }
      if i >= TABLE_SIZE {
        if Accepted(cmap) {
          FewLongsBefore(cmap, n);
        }
        return ArrayFull;
      }
      ghost var before := table[..];
      var ok := WriteLong(entry, table, i);
      if !ok {
        return UnsupportedType;
      }
      assert table[..] == before[i := LongOptOf(entry)];
      TabulatesNext(before, table[..], cmap, n);
      i := i + 1;
      n := n + 1;
    }
    assert cmap[..n] == cmap;
    TabulatedTells(table[..], cmap);
    if Accepted(cmap) {
      FewLongsBefore(cmap, n);
    }
    return LongOk;
  }

  /** Every long option has a short one, and a type that is none of the unsupported ones. */
  ghost predicate LongsFit(cmap: seq<MapEntry>) {
    forall i :: 0 <= i < |cmap| && cmap[i].optsLong.Some? ==> cmap[i].optsShort != 0 && cmap[i].kind != OtherEntry
  }

  lemma UsableMeans(cmap: seq<MapEntry>)
    ensures LongsUsable(cmap) <==> LongsFit(cmap)
  {}

  lemma NoLongs()
    ensures Longs([]) == [] && LongsUsable([])
  {}

  lemma FewLongsBefore(cmap: seq<MapEntry>, n: nat)
    requires Accepted(cmap) && n <= |cmap| && LongsUsable(cmap[..n])
    ensures |Longs(cmap[..n])| <= TABLE_SIZE - 1
  {
    AcceptedPrefix(cmap, n);
    FewLongs(cmap[..n]);
  }

  lemma AcceptedPrefix(cmap: seq<MapEntry>, n: nat)
    requires Accepted(cmap) && n <= |cmap|
    ensures Accepted(cmap[..n])
  {
    forall i | 0 <= i < n && cmap[..n][i].optsShort != 0
      ensures cmap[..n][i].optsShort > 0 && (cmap[..n][i].path.Some? || cmap[..n][i].kind.UsageEntry?)
      ensures forall j :: 0 <= j < i ==> cmap[..n][j].optsShort != cmap[..n][i].optsShort
    {
      assert cmap[..n][i] == cmap[i];
    }
  }

  /** What `getopt_long` returns for a long option leads back to the option's own entry. */
  lemma LongsIndexBack(cmap: seq<MapEntry>, index: seq<Option<nat>>, k: nat)
    requires Accepted(cmap) && LongsUsable(cmap) && Indexes(index, cmap) && k < |Longs(cmap)|
    ensures var val := LongOptOf(cmap[Longs(cmap)[k]]).val;
      0 < val < TABLE_SIZE && index[val] == Some(Longs(cmap)[k])
  {
    var i := Longs(cmap)[k];
    assert cmap[i].optsShort > 0;
  }

  // ----- the option string

  /** The character that the option array holds for a short option. */
  function ShortChar(short: schar): char {
    if short < 0 then (short + 256) as char else short as char
  }

  /** 0 for no argument, 1 for a required one, 2 for an optional one. */
  function Arity(kind: EntryType): nat {
    match kind
    case StrEntry | IntEntry | FloatEntry | YamlFileEntry => 1
    case BoolEntry => 2
    case UsageEntry | OtherEntry => 0
  }

  function Colons(n: nat): string {
    if n == 0 then "" else ":" + Colons(n - 1)
  }

  function Group(entry: MapEntry): string {
    if entry.optsShort == 0 then "" else [ShortChar(entry.optsShort)] + Colons(Arity(entry.kind))
  }

  function OptText(cmap: seq<MapEntry>): string {
    if cmap == [] then "" else OptText(cmap[..|cmap| - 1]) + Group(cmap[|cmap| - 1])
  }

  /** Whether all groups find room: three characters and the terminator have to be left for each. */
  ghost predicate HasRoom(cmap: seq<MapEntry>) {
    forall i :: 0 <= i < |cmap| && cmap[i].optsShort != 0 ==> 1 + |OptText(cmap[..i])| + 3 < OPTSTRING_SIZE - 1
  }

  /** In front of each group there are at most 251 characters, the colon at the start included. */
  ghost predicate GroupsFit(cmap: seq<MapEntry>) {
    forall i :: 0 <= i < |cmap| && cmap[i].optsShort != 0 ==> 1 + |OptText(cmap[..i])| <= 251
  }

  lemma RoomMeans(cmap: seq<MapEntry>)
    ensures HasRoom(cmap) <==> GroupsFit(cmap)
  {
    hide OptText;
  }

  /** The short option of an entry with its colons, written at pos. */
  method WriteGroup(entry: MapEntry, optstring: array<char>, pos: nat) returns (pos': nat)
    requires entry.optsShort != 0 && pos + 3 < optstring.Length
    modifies optstring
    ensures pos' == pos + |Group(entry)| <= pos + 3
    ensures optstring[..pos] == old(optstring[..pos]) && optstring[pos..pos'] == Group(entry)
    ensures forall k :: pos' <= k < optstring.Length ==> optstring[k] == old(optstring[k])
  {
    assert Colons(0) == "" && Colons(1) == ":" && Colons(2) == "::";
    pos' := pos;
    optstring[pos'] := ShortChar(entry.optsShort);
    pos' := pos' + 1;
    match entry.kind {
      case StrEntry | IntEntry | FloatEntry | YamlFileEntry =>
        optstring[pos'] := ':';
        pos' := pos' + 1;
      case BoolEntry =>
        optstring[pos'] := ':';
        pos' := pos' + 1;
        optstring[pos'] := ':';
        pos' := pos' + 1;
      case UsageEntry | OtherEntry =>
    }
  }

  /** `sconf_opts_create_optstring`: the text, and behind it nothing but terminators. */
  method CreateOptstring(cmap: seq<MapEntry>, optstring: array<char>) returns (ok: bool)
    requires optstring.Length == OPTSTRING_SIZE && forall k :: 0 <= k < OPTSTRING_SIZE ==> optstring[k] == '\0'
    modifies optstring
    ensures ok <==> HasRoom(cmap)
    ensures ok <==> GroupsFit(cmap)
    ensures ok ==> 1 + |OptText(cmap)| < OPTSTRING_SIZE
    ensures ok ==> optstring[..1 + |OptText(cmap)|] == ":" + OptText(cmap)
    ensures ok ==> forall k :: 1 + |OptText(cmap)| <= k < OPTSTRING_SIZE ==> optstring[k] == '\0'
  {
    hide Group, GroupsFit, OptText, HasRoom;
    RoomMeans(cmap);
    RoomAtStart(cmap);
    var pos := 1;
    optstring[0] := ':';
    var n := 0;
    while n < |cmap|
      invariant n <= |cmap|
      invariant HasRoom(cmap[..n]) && pos == 1 + |OptText(cmap[..n])| < OPTSTRING_SIZE
      invariant optstring[..pos] == ":" + OptText(cmap[..n])
      invariant forall k :: pos <= k < OPTSTRING_SIZE ==> optstring[k] == '\0'
    {
      var entry := cmap[n];
      ghost var before := optstring[..pos];
      PrefixFits(cmap, n);
      OptTextNext(cmap, n);
      if entry.optsShort == 0 {
        n := n + 1;
        continue;
      }
      if pos + 3 >= OPTSTRING_SIZE - 1 {
        return false;
      }
      var pos' := WriteGroup(entry, optstring, pos);
      assert optstring[..pos'] == before + Group(entry);
      pos := pos';
      n := n + 1;
    }
    assert cmap[..n] == cmap;
    return true;
  }

  lemma RoomAtStart(cmap: seq<MapEntry>)
    ensures HasRoom(cmap[..0]) && OptText(cmap[..0]) == ""
  {
  }

  lemma OptTextNext(cmap: seq<MapEntry>, n: nat)
    requires n < |cmap|
    ensures OptText(cmap[..n + 1]) == OptText(cmap[..n]) + Group(cmap[n])
    ensures cmap[n].optsShort == 0 ==> OptText(cmap[..n + 1]) == OptText(cmap[..n])
  {
    assert cmap[..n + 1][..n] == cmap[..n] && cmap[..n + 1][n] == cmap[n];
  }

  lemma PrefixFits(cmap: seq<MapEntry>, n: nat)
    requires n < |cmap| && HasRoom(cmap[..n])
    ensures cmap[n].optsShort != 0 && 1 + |OptText(cmap[..n])| + 3 >= OPTSTRING_SIZE - 1 ==> !HasRoom(cmap)
    ensures cmap[n].optsShort == 0 || 1 + |OptText(cmap[..n])| + 3 < OPTSTRING_SIZE - 1 ==> HasRoom(cmap[..n + 1])
  {
    forall i | 0 <= i <= n
      ensures cmap[..n + 1][..i] == cmap[..i]
      ensures i < n ==> cmap[..n][..i] == cmap[..i] && cmap[..n][i] == cmap[i]
    {
    }
  }

  // ----- reading the option string back

  /** The reading of an option string: a character, then up to two colons. */
  function Decode(text: string): seq<(char, nat)>
    decreases |text|
  {
    if text == "" then []
    else if |text| >= 3 && text[1] == ':' && text[2] == ':' then [(text[0], 2)] + Decode(text[3..])
    else if |text| >= 2 && text[1] == ':' then [(text[0], 1)] + Decode(text[2..])
    else [(text[0], 0)] + Decode(text[1..])
  }

  /** The short options with their arities, in the order of the map. */
  function Shorts(cmap: seq<MapEntry>): seq<(char, nat)> {
    if cmap == [] then []
    else if cmap[0].optsShort == 0 then Shorts(cmap[1..])
    else [(ShortChar(cmap[0].optsShort), Arity(cmap[0].kind))] + Shorts(cmap[1..])
  }

  /** What an option string says of an entry: its short option as an unsigned character, and its argument. */
  predicate Says(p: (char, nat), entry: MapEntry) {
    && p.0 as int == (if entry.optsShort < 0 then 256 + entry.optsShort else entry.optsShort)
    && (p.1 == 1 <==>
          entry.kind.StrEntry? || entry.kind.IntEntry? || entry.kind.FloatEntry? || entry.kind.YamlFileEntry?)
    && (p.1 == 2 <==> entry.kind.BoolEntry?)
    && (p.1 == 0 <==> entry.kind.UsageEntry? || entry.kind.OtherEntry?)
  }

  /** The positions of the entries with a short option. */
  function ShortPositions(cmap: seq<MapEntry>, from: nat): (r: seq<nat>)
    requires from <= |cmap|
    ensures forall i :: i in r <==> from <= i < |cmap| && cmap[i].optsShort != 0
    ensures forall j, k :: 0 <= j < k < |r| ==> r[j] < r[k]
    decreases |cmap| - from
  {
    if from == |cmap| then []
    else
      var rest := ShortPositions(cmap, from + 1);
      assert forall k :: 0 <= k < |rest| ==> rest[k] in rest;
      if cmap[from].optsShort != 0 then [from] + rest else rest
  }

  /** Each short option is said once, in map order, with what it takes. */
  lemma {:induction false} ShortsSay(cmap: seq<MapEntry>, from: nat)
    requires from <= |cmap|
    ensures var shorts, positions := Shorts(cmap[from..]), ShortPositions(cmap, from);
      && |shorts| == |positions|
      && forall k :: 0 <= k < |shorts| ==> positions[k] < |cmap| && Says(shorts[k], cmap[positions[k]])
    decreases |cmap| - from
  {
    hide Says, ShortChar, Arity;
    if from < |cmap| {
      assert cmap[from..][1..] == cmap[from + 1..] && cmap[from..][0] == cmap[from];
      EntrySays(cmap[from]);
      ShortsSay(cmap, from + 1);
    }
  }

  lemma EntrySays(entry: MapEntry)
    ensures Says((ShortChar(entry.optsShort), Arity(entry.kind)), entry)
  {}

  lemma {:induction false} OptTextCons(cmap: seq<MapEntry>)
    requires cmap != []
    ensures OptText(cmap) == Group(cmap[0]) + OptText(cmap[1..])
    decreases |cmap|
  {
    hide Group;
    var n := |cmap| - 1;
    var front := cmap[..n];
    if n == 0 {
      assert front == [] && cmap[1..] == [];
      assert [] + Group(cmap[0]) == Group(cmap[0]) == Group(cmap[0]) + [];
    } else {
      OptTextCons(front);
      assert cmap[1..][..n - 1] == front[1..] && cmap[1..][n - 1] == cmap[n];
      Associates(Group(cmap[0]), OptText(front[1..]), Group(cmap[n]));
    }
  }

  lemma Associates(a: string, b: string, c: string)
    ensures (a + b) + c == a + (b + c)
  {}

  lemma DecodeGroup(c: char, a: nat, rest: string)
    requires a <= 2 && (rest != "" ==> rest[0] != ':')
    ensures Decode([c] + Colons(a) + rest) == [(c, a)] + Decode(rest)
  {
    assert Colons(0) == "" && Colons(1) == ":" && Colons(2) == "::";
    var text := [c] + Colons(a) + rest;
    assert text[1 + a..] == rest;
    assert rest != "" ==> text[1 + a] == rest[0];
  }

  /**
   * Decoding recovers the short options and their arities in map order, for every map in which no
   * option is a colon itself.
   */
  lemma {:induction false} DecodeOptText(cmap: seq<MapEntry>)
    requires forall i :: 0 <= i < |cmap| ==> cmap[i].optsShort != ':' as int
    ensures Decode(OptText(cmap)) == Shorts(cmap)
    ensures OptText(cmap) != "" ==> OptText(cmap)[0] != ':'
    decreases |cmap|
  {
    if cmap != [] {
      OptTextCons(cmap);
      DecodeOptText(cmap[1..]);
      if cmap[0].optsShort != 0 {
        DecodeGroup(ShortChar(cmap[0].optsShort), Arity(cmap[0].kind), OptText(cmap[1..]));
      } else {
        assert OptText(cmap) == OptText(cmap[1..]);
      }
    }
  }

  /** Both tables tell `getopt_long` the same about arguments. */
  lemma ArityAgrees(entry: MapEntry)
    requires HasArgOf(entry.kind).Some?
    ensures var has := LongOptOf(entry).hasArg;
      Arity(entry.kind) == if has == RequiredArgument then 1 else if has == OptionalArgument then 2 else 0
  {}
}
