/**
 * The layers of `sconf_initialize` on the abstract tree: command line, environment, defaults. The
 * files, the environment, `getopt_long` and `strtod` are given from outside.
 */
module Layers {

  import opened Basics
  import opened Convert
  import opened ConfigMap
  import opened ConfigTree
  import opened OptionTables
  import opened PathSpec
  import opened PathLaws
  import opened Yaml
  import opened YamlDocs

  /**
   * What the layers depend on: YAML files by name, as events; environment variables; `strtod`; and
   * whether the usage text can be put together.
   */
  datatype World = World(files: map<string, seq<Event>>, env: map<string, string>, strtod: Strtod, usage: bool)

  // ----- shared pieces

  /** The scalar that a text stands for when an entry of this kind asks for it. */
  function ValueFor(kind: EntryType, text: string, strtod: Strtod): Option<Scalar> {
    match kind
    case StrEntry | YamlFileEntry => Some(Str(text))
    case IntEntry => (match StringToInteger(text) case Integer(i) => Some(Int(i)) case _ => None)
    case FloatEntry => (match strtod(text) case FloatBits(bits) => Some(Float(bits)) case _ => None)
    case BoolEntry => (match StringToBool(text) case Some(b) => Some(Bool(b)) case None => None)
    case UsageEntry | OtherEntry => None
  }

  /** `sconf_set_str` and its siblings. */
  function SetScalar(t: Tree, path: string, v: Scalar): (r: Merged)
    requires WellFormed(t)
    ensures Grows(t, r.tree) && WellFormed(r.tree)
  {
    SetKeeps(t, path, Some(Leaf(v)));
    var r := SetPath(t, path, Some(Leaf(v)));
    Merged(r.ok, r.tree)
  }

  /** `sconf_yaml_read`; the file may be missing. */
  function ReadFile(t: Tree, name: string, w: World): (r: Merged)
    requires WellFormed(t)
    ensures Grows(t, r.tree) && WellFormed(r.tree)
  {
    ReadGrows(t, if name in w.files then w.files[name] else [], w.strtod);
    if name in w.files then Read(t, w.files[name], w.strtod) else Merged(false, t)
  }

  lemma ReadGrows(t: Tree, es: seq<Event>, strtod: Strtod)
    requires WellFormed(t)
    ensures Grows(t, t) && Grows(t, Read(t, es, strtod).tree) && WellFormed(Read(t, es, strtod).tree)
  {
    hide Run;
    StepsGrow(Machine(AtStart, None, [], t), Run(Machine(AtStart, None, [], t), es, strtod));
  }

  /** Converts and sets; a YAML file is read before its name is set. */
  function Provide(t: Tree, kind: EntryType, path: string, text: string, w: World): (r: Merged)
    requires WellFormed(t)
    ensures Grows(t, r.tree) && WellFormed(r.tree)
  {
    match ValueFor(kind, text, w.strtod)
    case None => Merged(false, t)
    case Some(v) =>
      if kind.YamlFileEntry? then
        var r := ReadFile(t, text, w);
        if r.ok then
          var s := SetScalar(r.tree, path, v);
          ExtendsTransitive(t, r.tree, s.tree);
          s
        else r
      else SetScalar(t, path, v)
  }

  // ----- environment

  /** One round of the loop in `sconf_env_read`. */
  function EnvStep(t: Tree, e: MapEntry, w: World): (r: Merged)
    requires WellFormed(t)
    ensures Grows(t, r.tree) && WellFormed(r.tree)
  {
    if e.env.None? then Merged(true, t)
    else if e.path.None? then Merged(false, t)
    else if e.env.value !in w.env then Merged(true, t)
    else Provide(t, e.kind, e.path.value, w.env[e.env.value], w)
  }

  // ----- defaults

  /** One round of the loop in `sconf_defaults`. */
  function DefaultStep(t: Tree, e: MapEntry, w: World): (r: Merged)
    requires WellFormed(t)
    ensures Grows(t, r.tree) && WellFormed(r.tree)
  {
    if e.default.None? then Merged(true, t)
    else if e.path.None? || e.kind.UsageEntry? || e.kind.OtherEntry? then Merged(false, t)
    else match GetPath(t, e.path.value)
      case GetError => Merged(false, t)
      case Found(c) =>
        // a string or a file name has to be a string; other kinds are not looked at
        if e.kind.StrEntry? || e.kind.YamlFileEntry?
        then Merged(c in t && TypeOf(t[c]) == StrType, t)
        else Merged(true, t)
      case NotFound => Provide(t, e.kind, e.path.value, e.default.value, w)
  }

  // ----- command line

  /** One result of `getopt_long`: the option character, or ':' or '?', and the argument. */
  datatype Opt = Opt(c: nat, arg: Option<string>)

  /** Whether there are arguments at all, the results of `getopt_long`, and whether others follow. */
  datatype CommandLine = CommandLine(present: bool, opts: seq<Opt>, trailing: bool)

  /** The position of the entry with short option c. */
  function FindShort(cmap: seq<MapEntry>, c: nat): (r: Option<nat>)
    ensures r.Some? ==> r.value < |cmap| && cmap[r.value].optsShort == c && c != 0
    ensures r.None? && c != 0 ==> forall i :: 0 <= i < |cmap| ==> cmap[i].optsShort != c
  {
    if cmap == [] then None
    else
      var n := |cmap| - 1;
      if c != 0 && cmap[n].optsShort == c then Some(n) else FindShort(cmap[..n], c)
  }

  /** `sconf_opts_handle_option`; usage is shown by a callback that leaves the tree alone. */
  function HandleOption(t: Tree, e: MapEntry, arg: Option<string>, w: World): (r: Merged)
    requires WellFormed(t)
    ensures Grows(t, r.tree) && WellFormed(r.tree)
  {
    if e.kind.UsageEntry? then Merged(w.usage, t)
    else if e.path.None? then Merged(false, t)
    else if e.kind.BoolEntry? && arg.None? then SetScalar(t, e.path.value, Bool(true))
    else if arg.None? then Merged(false, t)
    else Provide(t, e.kind, e.path.value, arg.value, w)
  }

  /** One round of the loop in `sconf_opts_parse`. */
  function OptStep(t: Tree, cmap: seq<MapEntry>, o: Opt, w: World): (r: Merged)
    requires WellFormed(t)
    ensures Grows(t, r.tree) && WellFormed(r.tree)
  {
    if o.c == ':' as nat || o.c == '?' as nat then Merged(false, t)
    else match FindShort(cmap, o.c)
      case None => Merged(false, t)
      case Some(i) => HandleOption(t, cmap[i], o.arg, w)
  }

  // ----- all layers

  /** What contributes to a configuration: an option, or an entry's variable or default. */
  datatype Source = FromOption(opt: Opt) | FromEnv(entry: nat) | FromDefault(entry: nat)

  function Apply(t: Tree, cmap: seq<MapEntry>, s: Source, w: World): (r: Merged)
    requires WellFormed(t)
    ensures Grows(t, r.tree) && WellFormed(r.tree)
  {
    match s
    case FromOption(o) => OptStep(t, cmap, o, w)
    case FromEnv(i) => if i < |cmap| then EnvStep(t, cmap[i], w) else Merged(true, t)
    case FromDefault(i) => if i < |cmap| then DefaultStep(t, cmap[i], w) else Merged(true, t)
  }

  /** The sources one after the other, up to the first failure. */
  function ApplyAll(t: Tree, cmap: seq<MapEntry>, sources: seq<Source>, w: World): (r: Merged)
    requires WellFormed(t)
    ensures Grows(t, r.tree) && WellFormed(r.tree)
  {
    if sources == [] then Merged(true, t)
    else
      var n := |sources| - 1;
      var r := ApplyAll(t, cmap, sources[..n], w);
      if r.ok then
        var s := Apply(r.tree, cmap, sources[n], w);
        ExtendsTransitive(t, r.tree, s.tree);
        s
      else r
  }

  lemma {:induction false} ApplyConcat(t: Tree, cmap: seq<MapEntry>, s: seq<Source>, s': seq<Source>, w: World)
    requires WellFormed(t)
    ensures ApplyAll(t, cmap, s + s', w) ==
      var r := ApplyAll(t, cmap, s, w); if r.ok then ApplyAll(r.tree, cmap, s', w) else r
    decreases |s'|
  {
    hide Apply, Grows, WellFormed;
    if s' == [] {
      assert s + s' == s;
    } else {
      var n := |s'| - 1;
      assert (s + s')[..|s| + n] == s + s'[..n] && (s + s')[|s| + n] == s'[n];
      ApplyConcat(t, cmap, s, s'[..n], w);
    }
  }

  function OptionSources(opts: seq<Opt>): (sources: seq<Source>)
    ensures |sources| == |opts| && forall k :: 0 <= k < |opts| ==> sources[k] == FromOption(opts[k])
  {
    seq(|opts|, (k: nat) requires k < |opts| => FromOption(opts[k]))
  }

  function EnvSources(n: nat): (sources: seq<Source>)
    ensures |sources| == n && forall k :: 0 <= k < n ==> sources[k] == FromEnv(k)
  {
    seq(n, (k: nat) => FromEnv(k))
  }

  function DefaultSources(n: nat): (sources: seq<Source>)
    ensures |sources| == n && forall k :: 0 <= k < n ==> sources[k] == FromDefault(k)
  {
    seq(n, (k: nat) => FromDefault(k))
  }

  /** `sconf_opts_parse`. A map without short options makes it ignore the command line. */
  ghost function ParseOpts(t: Tree, cmap: seq<MapEntry>, line: CommandLine, w: World): (r: Merged)
    requires WellFormed(t)
    ensures Grows(t, r.tree) && WellFormed(r.tree)
  {
    if !line.present then Merged(true, t)
    else if !Accepted(cmap) || !LongsUsable(cmap) || !OptionTables.HasRoom(cmap) then Merged(false, t)
    else if OptText(cmap) == "" then Merged(true, t)
    else
      var r := ApplyAll(t, cmap, OptionSources(line.opts), w);
      if r.ok && line.trailing then Merged(false, r.tree) else r
  }

  /** `sconf_env_read`. */
  function ReadEnv(t: Tree, cmap: seq<MapEntry>, w: World): (r: Merged)
    requires WellFormed(t)
    ensures Grows(t, r.tree) && WellFormed(r.tree)
  {
    ApplyAll(t, cmap, EnvSources(|cmap|), w)
  }

  /** `sconf_defaults`. */
  function ApplyDefaults(t: Tree, cmap: seq<MapEntry>, w: World): (r: Merged)
    requires WellFormed(t)
    ensures Grows(t, r.tree) && WellFormed(r.tree)
  {
    ApplyAll(t, cmap, DefaultSources(|cmap|), w)
  }

  /** `sconf_initialize`. The validators leave the tree alone; `valid` is their verdict. */
  ghost function Initialize(t: Tree, cmap: seq<MapEntry>, line: CommandLine, valid: bool, w: World): (r: Merged)
    requires WellFormed(t)
    ensures Grows(t, r.tree) && WellFormed(r.tree)
  {
    var r0 := ParseOpts(t, cmap, line, w);
    if !r0.ok then r0
    else
      var r1 := ReadEnv(r0.tree, cmap, w);
      ExtendsTransitive(t, r0.tree, r1.tree);
      if !r1.ok then r1
      else
        var r2 := ApplyDefaults(r1.tree, cmap, w);
        ExtendsTransitive(t, r1.tree, r2.tree);
        if !r2.ok then r2 else Merged(valid, r2.tree)
  }
}
