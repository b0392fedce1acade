# simpleconfig in Dafny

simpleconfig is a C library that keeps one configuration tree: dicts, sparse arrays and typed
scalars. The tree is filled by path setters, YAML files, command-line options, environment variables
and defaults, all of which go through `sconf_node_create_and_insert`. This project models that tree
and all of its writers, and proves what they do to it.

There are two levels.

* **The abstract level** is a flat map `Tree` from addresses (lists of keys and indices) to entries
  (dict, array or scalar). On it, functions follow the C code: the token loops of set and get
  (`PathSpec`), the YAML event machine (`Yaml.Step`), the fill-in and override layers (`Layers`).
  The laws are about these functions: set is one update of the flat map, get is a structural lookup,
  reading a file puts entries over the tree that do not depend on it, the event machine computes the
  recursive merge of documents, defaults only fill what is missing, and so on.
* **The heap level** has the objects and loops of the C code: `Node`, `SconfArray` over a real
  array, `Config`, `YamlState` with its linked parent stack, the option tables as arrays. Each
  method's contract says that the new tree is the abstract function of the old one. A ghost ledger in
  `Config` maps every address to its node and every heap object to its address; `Config.Valid` says
  that what is allocated and not freed is exactly what is reachable.

Module by module: `Basics`, `CText` (strtol, strtok), `Convert` and `Numerals` (which texts are numbers), `SparseArrays`, `ConfigTree`,
`Nodes`, `Configs`, `Teardown`, `Insertion` (the common primitive), `PathSpec`/`PathLaws`/`Paths`,
`GetLaws` and `PathMeaning` (set and get), `Yaml` and `YamlReader` (the event machine), `YamlOverlay` (what any events
do to any tree), `YamlDocs`/`YamlLaws`/`YamlScripts`/`YamlStreams` (what streams of documents write),
`YamlMerge`/`YamlLimits`/`YamlArrayRoots`/`YamlAsSets` (what that means), `YamlFaults` (what is refused), `ConfigMap`, `OptionTables`, `Layers`/`DefaultLaws`/`Precedence`/`ValueLaws`/`Success`/`Replays`/
`ReplayExample`/`Startup`, `Runs` (whole runs).

What is true of the code but might not be expected:

* Below a dict root, set takes a first segment such as `[0]` for a plain key, while get with more
  than one segment reports "not found" (`PathLaws.SetThenGet` says exactly when; "[0].a" in
  `PathLaws.BracketIsLost` is a case). Any other start of a path is called plain. A default on a path
  without a plain start replaces a value that has been set (`DefaultLaws.DefaultAfterSet`; a case is
  `DefaultLaws.DefaultReplaces`).
* Where a name meets an array, get goes on with the last index it has parsed, and where a bracket
  meets something else, it stops. With a = [v], it finds v under "a.b" (`GetLaws.NameFindsElement`).
  `GetLaws.GetEverywhere` says what get does on every path.
* Below an array root the first key of a YAML stream is never dropped. "a: []" is read, and puts an
  array at index 0 (`YamlArrayRoots.ListOnArrayRoot`). With a mapping first, "a: {}" and "b: []", the
  key b becomes an element, which no setting of leaves can do (`YamlAsSets.MappingOnArrayRoot`); below
  an array root reading is setting the leaves by their paths exactly if a sequence comes first
  (`YamlAsSets.ReadIsSettingLeaves`). `YamlStreams.ReadIsPlan` says what is written for every stream of
  mappings below every kind of root.
* A default file on a plain path is read in the first initialisation only. If it replaces the value of
  an option, a second initialisation ends otherwise (`ReplayExample.FileOnlyOnce`;
  `Replays.InitializeTwice` says exactly when). A default file on another path is read in every run.
* src/yaml.c:287-288 calls a recursive-descent parser the more sensible form. The event machine
  computes what such a parser would, but not for all documents: after an inner sequence it is always
  in the block state, so that "a: [[], []]" is not read (`YamlLimits.TwoInnerSequences`).
  `YamlLimits.ReadIsMergeExactly` says which documents are read as written. Other documents can only
  agree by accident, when an array already holds a bracketed string right behind an inner array or a
  gap (`YamlLimits.AgreesByAccident`).
* The comment at src/yaml.c:176 promises that the type of a removed parent is checked. The code does
  not look at it, and neither does `Yaml.ParentRemove`.
* Distinct paths do not suffice for a default to be taken: when a longer path has been provided for,
  the shorter one holds a dict, and initialisation still succeeds
  (`Precedence.DefaultGivesWay`; the exact condition is in `Precedence.InitializeWinner`). When no path
  is the beginning of another, nothing but the order of precedence counts
  (`Success.InitializePlainly`).
* Where a key can come, the machine also takes the end of a sequence, or of the document, for the end of
  the mapping (`YamlFaults.LooseEnds`). All other misplaced events end the reading
  (`YamlFaults.MisplacedEvent`, `YamlFaults.DocumentFault`, `YamlFaults.StreamFault`).
* An empty text is the integer 0 where an option, a variable or a default asks for one, while an empty
  YAML scalar is a string (`Numerals.IntegerExactly`, `Yaml.ScalarExactly`).
* Anything can stand behind the digits of an index, as long as a bracket closes it: "[1x]" is "[1]"
  (`Numerals.IndexExactly`).
* A set that fails leaves the containers on its way, and the one that is too deep is made before the
  depth is looked at (`PathMeaning.FailedSetExactly`).
* Booleans are compared by prefix, so that the plain YAML text `north` is false
  (`Yaml.NorthIsFalse`, `Convert.BoolExactly`).
* Indices are cut down to 32 bits: `[4294967296]` is `[0]` (`Convert.IndexTextReads`).
* Inserting into a dict under a name that is present replaces the entry and reports failure
  (`Nodes.Node.DictInsert`). No writer does this, as all of them search first.
* The environment is read after the command line and wins over it.

## Model

| member | source | states |
|---|---|---|
| Convert.DecimalRoundTrip | src/convert.c:22-52 | the decimal text of every integer converts back to it inside the 64-bit range and is a range error outside |
| Convert.OctalRoundTrip | src/convert.c:22-52 | the same for "0" and octal digits |
| Convert.HexRoundTrip | src/convert.c:22-52 | the same for "0x" and lower-case hexadecimal digits |
| Convert.WordIsNoNumber | src/convert.c:22-52 | a text that starts with a letter is no integer |
| Numerals.DigitExactly | src/convert.c:35-40 | the digits are 0 to 9 and the letters in both cases, with their values |
| Numerals.ValueIsPlaceValue | src/convert.c:35-40 | the number that is read is the sum of the digits, each with the power of its place |
| Numerals.IntegerExactly | src/convert.c:22-52 | a text is an integer, or out of the 64-bit range, exactly if it is empty or from end to end a hexadecimal, an octal, or a decimal numeral with optional blanks and sign; the value is what the digits add up to |
| Numerals.NumericOnly | src/convert.c:37-39 | a text with any character that no numeral has is no integer |
| Numerals.NothingBehind | src/convert.c:37-39 | a decimal numeral with anything but a digit behind it is no integer |
| Numerals.IndexExactly | src/sconf.c:214-253 | a bracketed text is an index exactly if a decimal numeral follows the bracket, a bracket ends it, and the number is not negative and a long; the index is the number cut down to 32 bits |
| Numerals.NoNumbers | src/sconf.c:239-243 | "13.37" is no integer, and "[a]", "[]", "[-1]" and "[1" are no indices |
| Convert.BoolExactly | src/convert.c:95-112 | a text is true or false exactly if it starts with one of the three words for it |
| Convert.IndexTextReads | src/sconf.c:214-253 | "[i]" reads as i exactly for 32-bit i; larger longs are cut down, and larger numbers refused |
| CText.TokensOfJoin | src/sconf.c:1289-1319 | splitting a path at dots recovers the segments it was joined from |
| CText.OneToken | src/sconf.c:1289-1319 | a text without dots is one token, or none if it is empty |
| CText.DotSplits | src/sconf.c:1289-1319 | at every dot, wherever it stands, the tokens are those before it and those behind it, so that empty pieces do not count |
| SparseArrays.SconfArray.Create | src/array.c:18-46 | sizes 1 to 65536 give an array without entries, others none |
| SparseArrays.SconfArray.Grow | src/array.c:76-107 | growing keeps the entries, empties the new slots, never shrinks, and stops at the maximum |
| SparseArrays.SconfArray.Insert | src/array.c:118-144 | the index-to-node map gains exactly this entry; an occupied slot or an index beyond the maximum is refused without effect |
| SparseArrays.SconfArray.Search | src/sconf.c:459-482 | finds what the index-to-node map holds |
| SparseArrays.SconfArray.Next | src/sconf.c:494-520 | the next filled slot from an index on, or none when there are no more |
| SparseArrays.SconfArray.VisitAll | src/sconf.c:494-520 | repeated next from 0 visits exactly the filled slots, each once, in increasing order |
| SparseArrays.SconfArray.Foreach | src/sconf.c:532-565 | passes the callback the same sequence, up to its first failure |
| SparseArrays.FilledFromEnumerates | src/sconf.c:494-565 | this sequence enumerates the index-to-node map: complete, without repetition, increasing |
| ConfigTree.PutKeeps | src/sconf.c:893-981 | create-or-replace keeps the tree well formed and every entry's type, and removes nothing |
| Nodes.Node.Create | src/sconf.c:835-879 | a new node of the requested type without children; none for other types |
| Nodes.Node.DictInsert | src/sconf.c:265-295 | the named child becomes this node; success only when the name was free |
| Nodes.Node.DictSearch | src/sconf.c:307-330 | finds the named child; an error without a name or on other nodes |
| Nodes.Node.ArrayInsert | src/sconf.c:424-447 | the child at a free index below the maximum becomes this node; nothing changes otherwise |
| Nodes.Node.ArraySearch | src/sconf.c:459-482 | finds the child at an index; an error on other nodes |
| Nodes.Node.Replace | src/sconf.c:733-824 | a node takes a new scalar of its own type and stays the same node |
| Configs.Config.constructor | src/sconf.c:835-879 | a new root is the only allocated node |
| Configs.OneParent | src/sconf.c:893-981 | in a valid configuration no node hangs on two parents or twice on one, and the root on none |
| Insertion.CreateAndInsert | src/sconf.c:893-981 | the heap primitive changes the abstract tree as the abstract put does, keeps every node at its address, and leaks nothing when it fails |
| Insertion.TreeWellFormed | src/sconf.c:893-981 | the nodes of a valid configuration form a well-formed tree: dicts have named children, arrays indexed ones below the maximum, scalars none |
| Teardown.Destroy | src/sconf.c:656-676 | terminates and frees exactly the nodes of the subtree, each of them live when it is freed |
| Teardown.DestroyDict | src/sconf.c:600-607 | the same for all children of a dict |
| Teardown.DestroyArray | src/sconf.c:615-632 | the same for all children of an array |
| PathSpec.SetWalkSucceeds | src/sconf.c:1280-1332 | from any container on, the token loop of set succeeds exactly when every step may be written and the address is short enough |
| PathSpec.SetWalkGrafts | src/sconf.c:1280-1332 | on success it has written the containers on the way and the value |
| PathSpec.SetWalkFails | src/sconf.c:1280-1332 | on failure at most a chain of empty containers is new |
| PathLaws.SetSucceedsExactly | src/sconf.c:1261-1333 | set succeeds if and only if the path denotes an address less than 20 segments long, and every step on it is free or holds a node of the needed type |
| PathLaws.SetRefinesFlatMap | src/sconf.c:1261-1333 | a successful set is one update of the address-to-scalar map; besides, only proper prefixes of the address become containers |
| PathLaws.FailedSetKeepsScalars | src/sconf.c:1261-1333 | a failed set adds, changes and removes no scalar; only a chain of empty containers may appear |
| PathLaws.SetKeeps | src/sconf.c:1261-1333 | success or not, set keeps the tree well formed, all types, and the height bound |
| PathLaws.GetRefinesLookup | src/sconf.c:993-1101 | on kind-consistent paths the token loop with its carried index is the structural lookup of the address, and finds it exactly when it is present |
| PathLaws.LookupFindsPresent | src/sconf.c:993-1101 | the structural lookup finds exactly the present addresses |
| PathLaws.GetStable | src/sconf.c:993-1101 | what get has found, it finds at the same address after any later writes |
| PathLaws.SetThenGet | src/sconf.c:993-1101 | after a successful set, get on the same path finds the new value, unless a dict root meets a bracketed first of several segments; then it reports "not found" |
| PathLaws.BracketIsLost | src/sconf.c:1023-1027 | a concrete path that is set with success and then not found |
| GetLaws.GetRewritten | src/sconf.c:1060-1067 | on every path, writing out the carried index wherever a name meets an array changes nothing for get |
| GetLaws.GetEverywhere | src/sconf.c:993-1101 | on every path, get is the lookup of the address of the rewritten path, or stops at a malformed index, where a bracket meets no array, or at a scalar, with a given result; without tokens it asks an array root for its first element |
| GetLaws.NameFindsElement | src/sconf.c:1060-1067 | a concrete path that get finds although its address is not there |
| PathLaws.SetKeepsOtherPaths | src/sconf.c:993-1101 | after a set, get on every path whatsoever that does not find the new scalar gives the scalar it gave before |
| PathLaws.SetKeepsOtherAddresses | src/sconf.c:993-1101 | in particular on every kind-consistent path with another address |
| PathMeaning.AddressExactly | src/sconf.c:893-915 | a path stands for an address token by token: a name in a dict, an index in an array, the first element for a name that meets an array root |
| PathMeaning.SetExactly | src/sconf.c:1261-1333 | set succeeds exactly if the path stands for an address of less than 20 steps, and every step finds an entry of its kind, or nothing and no index from 65536 on |
| PathMeaning.SetWritesExactly | src/sconf.c:1261-1333 | afterwards the address holds the new entry, the steps before it are containers of their kinds, and all else is as it was |
| PathMeaning.FailedSetExactly | src/sconf.c:1288-1316 | a failed set leaves exactly the containers on its way up to the step that cannot be made, or to depth 19 |
| PathMeaning.SetNeedsIndices | src/sconf.c:214-253 | set refuses every path with a malformed index, and changes no scalar |
| PathMeaning.GetNeedsIndices | src/sconf.c:993-1101 | get finds nothing on a path with a malformed index, but for a last token that is the name of a dict's child |
| PathMeaning.NoLetters | src/sconf.c:239-243 | "arr.[a]" and "arr.[]" cannot be set |
| Paths.Set | src/sconf.c:1261-1333 | the loop with lagging tokens on the heap does what the abstract set does, and keeps every node at its address |
| Paths.Get | src/sconf.c:993-1101 | the loop on the heap returns 1 and the node, 0 or -1 as the abstract get does |
| Yaml.ScalarsRead | src/yaml.c:212-281 | quoted text stays a string, plain decimal, octal and hexadecimal numerals become their integers or range errors, strings keep their text |
| Yaml.ScalarExactly | src/yaml.c:212-281 | the value of every scalar: quoted and empty text is a string, an integer its number or out of range, other text a float, out of range, a boolean or a string; it keeps its text exactly if it is quoted, empty, or nothing else |
| Yaml.WordsRead | src/yaml.c:212-281 | plain text that is no integer becomes the number that strtod sees, else a boolean exactly if it starts with a word for one, else a string |
| Yaml.NorthIsFalse | src/convert.c:104-109 | a concrete word that becomes a boolean |
| Yaml.StepKeeps | src/yaml.c:297-492 | no event, expected or not, makes the stack deeper than 19, puts anything but a live container on it, or an entry that is not the root or a child of the entry beneath; no node is lost or retyped, no height exceeded |
| Yaml.PushKeeps | src/yaml.c:46-70 | a push keeps the stack sound |
| Yaml.PopKeeps | src/yaml.c:183-200 | so does a removal |
| YamlOverlay.StepFollows | src/yaml.c:297-492 | an event does to a machine with a tree beneath what it does without, or fails where the tree holds another type |
| YamlOverlay.ReadOverlays | src/yaml.c:503-557 | for every sequence of events and every root: reading succeeds exactly if it does so below the bare root and the tree holds nothing of another type where that has made an entry, and then puts these entries over the tree |
| YamlOverlay.ReadsAgain | src/yaml.c:503-557 | events that have been read are read again on every later tree, and write the same there |
| YamlOverlay.ReadTwice | src/yaml.c:503-557 | reading any events a second time succeeds and changes nothing |
| YamlScripts.ChildRun | src/yaml.c:297-492 | wherever a value or an element is expected, whether or not a key is pending, reading a document is performing its script, partial results of failures included |
| YamlScripts.PairsRun | src/yaml.c:297-492 | the same for the pairs of a mapping; under a pending key the first pair is refused |
| YamlScripts.ItemsRun | src/yaml.c:297-492 | the same for the elements of a sequence up to its end; right after an inner sequence only a mapping is an element, and a scalar in front of a container is taken for a key |
| YamlStreams.DocumentRun | src/yaml.c:321-358 | the same for a document, below every kind of root; afterwards the stack is empty |
| YamlStreams.ReadIsPlan | src/yaml.c:503-557 | for all streams of mappings and every kind of root, reading is performing a plan that depends on the documents and the kind of the root alone, on success and on failure |
| YamlMerge.ReadIsMerge | src/yaml.c:503-557 | below a dict root, reading a stream is the left fold of the merge, on success and on failure, if the documents are supported as far as the merge gets |
| YamlFaults.StartFault | src/yaml.c:308-319 | events that do not begin with the start of a stream are refused |
| YamlFaults.StreamFault | src/yaml.c:321-338 | between documents everything but a document and the end of the stream is refused, with the documents before it read; no event behind it counts |
| YamlFaults.DocumentFault | src/yaml.c:340-358 | at the start of a document everything but a mapping and its end is refused, in the same way |
| YamlFaults.NoMapping | src/yaml.c:340-358 | so a document that is a scalar or a sequence is refused, whatever comes before and after it |
| YamlFaults.BareDocument | src/yaml.c:349-351 | a document without a node is read and is nothing |
| YamlFaults.MisplacedEvent | src/yaml.c:360-492 | anywhere inside a document, an event that has no place there, aliases included, ends the reading with what came before it written |
| YamlFaults.LooseEnds | src/yaml.c:379-405 | at the end of a document the end of a sequence does as well as that of the mapping, and so does none |
| YamlFaults.StopsAtEnd | src/yaml.c:529-550 | nothing behind the end of a stream counts |
| YamlFaults.Truncated | src/yaml.c:529-550 | events without the end of the stream are not read |
| YamlFaults.ForgottenColon | src/yaml.c:353-356 | the file "port 8080" is refused, with nothing changed |
| YamlLimits.ReadIsMergeExactly | src/yaml.c:475-481 | reading is the merge if the documents are supported as far as the merge gets, and when the merge succeeds, only if all are supported; for all documents on a tidy tree, and on all trees when no element text starts with a bracket |
| YamlLimits.OddElement | src/yaml.c:475-481 | a scalar or a sequence right after an inner sequence is refused, makes an entry of another type, or goes to another slot |
| YamlLimits.TwoInnerSequences | src/yaml.c:475-481 | "a: [[], []]" is not read as it is written |
| YamlLimits.AgreesByAccident | src/yaml.c:475-481 | a concrete tree that is not tidy, on which a document that is not supported is read as the merge has it |
| YamlLaws.AllIsPlan | src/yaml.c:131-281 | merging documents is performing their writes in document order |
| YamlArrayRoots.KeyedItems | src/yaml.c:131-169 | while a key that is no index is pending, elements are written as the merge writes them, as far as nothing is refused |
| YamlArrayRoots.ArrayRootFirstPair | src/yaml.c:131-169 | below an array root the first pair is refused with nothing changed if its value is a scalar, its key a malformed index, or its slot out of range or taken by another type; otherwise the slot holds its container |
| YamlArrayRoots.ArrayRootRefusal | src/yaml.c:131-169 | with a free slot, a stream is refused with nothing changed if and only if the first value is a scalar, or the index malformed or out of range |
| YamlArrayRoots.ListOnArrayRoot | src/yaml.c:143-166 | "a: []" is read below an array root: a concrete stream |
| YamlAsSets.PathLeadsBack | src/sconf.c:1261-1333 | the path written for an address denotes that address below a dict root, and below an array root the address with index 0 in place of the first name |
| YamlAsSets.ReadIsSettingLeaves | src/yaml.c:131-281 | for keys that are plain path segments, setting each leaf by its path succeeds and ends in the same scalars as a successful read: below a dict root for supported documents, below a scalar root as there are no leaves, and below an array root with a free second element if and only if the first value is a sequence |
| YamlAsSets.MappingOnArrayRoot | src/yaml.c:131-169 | a concrete stream that leaves a scalar below an array root but has no leaf to set |
| YamlReader.YamlState.Push | src/yaml.c:46-70 | a new frame on top while the depth is below 19; depth and stack stay in step |
| YamlReader.YamlState.Pop | src/yaml.c:81-99 | the top frame goes; an empty stack is an error |
| YamlReader.YamlState.Destroy | src/yaml.c:107-119 | the stack is emptied and the key dropped |
| YamlReader.AddParent | src/yaml.c:131-169 | on the heap, the abstract container step, with the container created before the depth is checked |
| YamlReader.RemoveParent | src/yaml.c:183-200 | on the heap, the abstract removal step |
| YamlReader.AddNode | src/yaml.c:212-281 | on the heap, the abstract scalar step |
| YamlReader.ConsumeEvent | src/yaml.c:297-492 | one event takes parser state and tree to the next state of the abstract machine |
| YamlReader.ReadEvents | src/yaml.c:503-557 | the event loop ends with the result and the tree of the abstract read, its state destroyed, every node still at its address |
| OptionTables.CreateIndex | src/opts.c:37-75 | succeeds exactly when short options are positive, differ, and have a path or ask for usage; each slot then leads to its entry |
| OptionTables.FewLongs | src/opts.c:87-143 | with an accepted index at most 127 entries have a long option |
| OptionTables.CreateLongOpts | src/opts.c:87-143 | the table lists the long options in map order and keeps a zero terminator; with an accepted index it is never full |
| OptionTables.TabulatedTells | src/opts.c:87-143 | each long option once, in map order, with its name, its short option as an unsigned character, and its argument by type |
| OptionTables.ShortsSay | src/opts.c:155-207 | each short option once, in map order, as an unsigned character, and with its argument by type |
| OptionTables.LongsIndexBack | src/opts.c:113-114 | the value of a long option indexes back to its own entry |
| OptionTables.CreateOptstring | src/opts.c:155-207 | the text fits its buffer with a terminator behind it, exactly when there is room for every group |
| OptionTables.DecodeOptText | src/opts.c:155-207 | decoding a character and its colons recovers options and arities in map order, when no option is a colon |
| OptionTables.ArityAgrees | src/opts.c:155-207 | the option string and the long table agree about arguments |
| Startup.HandleOpt | src/opts.c:651-707 | on the heap, the abstract handling of one option |
| Startup.OptsParse | src/opts.c:721-814 | on the heap: tables, the shortcut without short options, the loop over option results, and the check for other arguments |
| Startup.ReadVariable | src/env.c:203-255 | on the heap, the abstract step for one variable |
| Startup.EnvRead | src/env.c:186-259 | on the heap, the fold of these steps up to the first failure |
| Startup.ApplyDefault | src/defaults.c:17-221 | on the heap, the abstract step for one default |
| Startup.Defaults | src/defaults.c:232-297 | on the heap, the fold of these steps up to the first failure |
| Startup.InitializeConfig | src/sconf.c:1411-1445 | options, environment, defaults, then the verdict of the validators, each only after the success of the one before |
| DefaultLaws.DefaultsKeepValues | src/defaults.c:232-297 | without default YAML files and with plain starts of the defaulted paths, defaults change no entry that is there, not even when they fail midway |
| DefaultLaws.DefaultsThenGet | src/defaults.c:232-297 | after success every path with a default and a plain start is found, strings and file names as strings |
| DefaultLaws.DefaultsTwice | src/defaults.c:232-297 | with plain starts of the defaulted paths, a second run succeeds and changes nothing, whatever the default files hold |
| DefaultLaws.DefaultAfterSet | src/defaults.c:17-182 | a default leaves a value set on its path alone exactly when the start of the path is plain |
| DefaultLaws.DefaultReplaces | src/defaults.c:147-182 | a concrete default that replaces a value that has been set |
| DefaultLaws.NotFoundIsAbsent | src/defaults.c:17-182 | with a plain start, what get does not find and set can write was not there |
| DefaultLaws.FileOverlays | src/defaults.c:194-221 | for every file, what it writes on its own is put over what is there, then its name is set; this fails exactly if the file cannot be read on its own, an entry of another type stands in its way, or the name cannot be set |
| DefaultLaws.FileOfDocuments | src/defaults.c:194-221 | a file of mappings is read by its plan, also when that fails; below a dict root this is the merge as far as the documents are supported |
| DefaultLaws.MissingFile | src/yaml.c:503-527 | without the file nothing is read or set |
| Precedence.InitializeWinner | src/sconf.c:1411-1445 | after success an entry holds its variable's value, else its last option's, else the prior value, else its default; the default gives way to a dict exactly when a longer path has been provided for |
| Precedence.DefaultGivesWay | src/defaults.c:147-182 | distinct paths alone do not make a default hold: a concrete map |
| Precedence.ApplyOffer | src/env.c:186-259 | an option or variable that does not fail writes its scalar at its entry's address and only dicts above it |
| ValueLaws.ValueExactly | src/opts.c:220-640 | what a text is for an entry: a string as it is, an integer by its digits, a float as strtod reads it, a boolean by the six words, and nothing else |
| ValueLaws.DecimalDenotes | src/convert.c:22-52 | for an integer entry the decimal text of a 64-bit integer is that integer |
| ValueLaws.TextHolds | src/opts.c:220-640 | after a text has been provided for an entry, its address holds what the text denotes; a text that denotes nothing is refused |
| ValueLaws.OptionGives | src/opts.c:651-707 | the same for an option; a flag without an argument is set, and usage changes nothing |
| ValueLaws.VariableGives | src/env.c:203-255 | the same for a variable that is set |
| ValueLaws.DefaultGives | src/defaults.c:17-221 | the same for a default whose path get does not find |
| ValueLaws.InitializeByVariable | src/sconf.c:1411-1445 | after initialisation an entry whose variable is set holds what its text denotes |
| ValueLaws.InitializeByOption | src/sconf.c:1411-1445 | without its variable, what the argument of its last option denotes |
| ValueLaws.InitializeByDefault | src/sconf.c:1411-1445 | without both, what was there before, and else what the text of its default denotes |
| Success.AppliesAllIff | src/sconf.c:1424-1432 | with independent paths, options and variables succeed together exactly when each is known, takes its argument, and converts |
| Success.DefaultsApplyIff | src/defaults.c:232-297 | with independent paths, the defaults succeed exactly when each that is needed converts |
| Success.InitializeSucceeds | src/sconf.c:1411-1445 | with independent paths that the tree leaves open, initialisation succeeds if and only if the tables can be built, nothing but options is on the command line, every given text converts, every default that is needed converts, and the validators agree |
| Success.InitializePlainly | src/sconf.c:1411-1445 | with independent paths an entry holds its variable's value, else its last option's, else the prior value, else its default |
| Replays.SetRepeats | src/sconf.c:1261-1333 | a set that has succeeded succeeds on every later tree, and changes one scalar there |
| Replays.ProvidesAgain | src/env.c:160-175 | a file or a text that is provided puts entries over the tree that do not depend on it, and is provided again on every later tree |
| Replays.FirstByPresence | src/defaults.c:17-221 | a default with a plain start is only applied if its address is free, and where get can follow its path, exactly then |
| Replays.RunIsOverlay | src/sconf.c:1411-1445 | a successful run of options, variables and defaults, any files included, ends in the starting tree with its log over it, no more and no less |
| Replays.InitializeIsOverlay | src/sconf.c:1411-1445 | after a successful initialisation, with any map and any files, every address holds what the last source has written that writes there, and what was there before where none does |
| Replays.Replay | src/sconf.c:1411-1445 | a run of options, variables and defaults, any files included, succeeds again on every later tree, and writes what it writes in every run |
| Replays.DefaultsAgain | src/defaults.c:232-297 | with any starts and files, a second run of the defaults succeeds; it changes nothing if and only if no default file has replaced a default that get cannot see |
| Replays.InitializeTwice | src/sconf.c:1411-1445 | a second initialisation succeeds; it changes nothing if and only if no default file has replaced what options, variables and defaults that get cannot see write in every run, and so whenever no default is a file on a plain path |
| Replays.ScalarRootInitialize | src/sconf.c:1411-1445 | on a scalar root a successful initialisation changes nothing |
| ReplayExample.FileOnlyOnce | src/defaults.c:213 | a concrete map whose second initialisation ends otherwise |
| Runs.TypesAreStable | src/sconf.c:927-980 | over any calls, an entry stays where it is with its type |
| Runs.HeightIsBounded | src/sconf.c:1288-1316 | from an empty root, after any calls, failures included, no node lies more than 19 edges below the root |
| Runs.DoAll | src/sconf.c:893-981 | over any calls on the heap: allocated is what is reachable, and every node stays at its address |
| Runs.DestroyRoot | src/sconf.c:656-676 | destroying the root of a valid configuration frees every allocated node |
| Runs.WholeRun | src/sconf.c:656-676 | from a new root over any calls to the end, nothing is left allocated, and the height bound held |

## Left out

- libyaml's scanner, files, and parser cleanup (src/yaml.c:506-556): reading takes the events of a file; running out of events is a parser error.
- The adaptive radix tree: a dict is a map from names to nodes. The order in which it hands out its entries is left open, and `sconf_node_dict_foreach` is left out.
- `getopt_long`, `getenv` and `strtod`: their results are given (a list of options, a map of variables, a function from texts to bit patterns). Options are assumed to be characters of the table, with an argument where one is required.
- Failing allocation, NULL arguments, error messages.
- Usage text, padding, `printf` and `exit`: usage leaves the tree alone, and whether its text can be put together is given. The default action, which ends the program, is not modelled.
- src/validate.c and user callbacks: validation leaves the tree alone and its verdict is given.
- Type-name tables and accessors (src/sconf.c:19-162), typed getters: they only look at a node that has been found.
- Nodes.Node.Replace: does not model the copy and the release of a string's text (src/sconf.c:733-755); a node takes a new value.
- Startup.HandleOpt: does not model the usage text, its callback, and the exit; whether the text can be put together is given.
- Startup.InitializeConfig: does not model the validators; their verdict is given.
- Paths.Set: excludes paths that denote the largest 32-bit index, as the C code adds one to it in 32 bits (src/array.c:131).
- YamlReader.ReadEvents: excludes texts that denote this index, and files with 2^32 - 16 or more events, for whose elements the 32-bit counter might not suffice.
- Nodes.Node.ArrayInsert: excludes this index.
- SparseArrays.SconfArray.Insert: excludes it too.
- Insertion.CreateAndInsert: excludes names and indices that denote it.
- Replays.InitializeTwice: for dict and array roots; on a scalar root a successful initialisation changes nothing (`Replays.ScalarRootInitialize`).
- Aliases, and keys that are no scalars: documents (`YamlDocs.Doc`, `YamlDocs.Pairs`) have none, so that `YamlStreams.ReadIsPlan` does not speak of them; `YamlFaults.MisplacedEvent` says that they are refused, and `YamlOverlay.ReadOverlays` holds for every sequence of events.
- YamlReader.AddParent: excludes keys that denote the largest 32-bit index, and counters next to it.
- YamlReader.AddNode: excludes them too.
- YamlReader.ConsumeEvent: excludes them too.
- Startup.OptsParse: excludes paths and file texts that denote this index.
- Startup.ReadVariable: excludes them too.
- Startup.EnvRead: excludes them too.
- Startup.ApplyDefault: excludes them too.
- Startup.Defaults: excludes them too.
- A plain `char` is taken as signed, and `long` as 64 bits wide.
- YamlLimits.ReadIsMergeExactly: leaves out documents with a bracketed element text on trees that are not tidy; there the outcome can depend on what the tree holds (`YamlLimits.AgreesByAccident`).
- YamlAsSets.ReadIsSettingLeaves: below an array root only where the second element is free; what stands there could be what the read puts there.
- YamlArrayRoots.ArrayRootRefusal: only where the first slot is free; `YamlArrayRoots.ArrayRootFirstPair` covers the other trees.
- YamlFaults.MisplacedEvent: below a dict root, in documents that are supported up to the event; elsewhere `YamlOverlay.ReadOverlays` says what any events do.
- Success.InitializeSucceeds: only for maps without YAML files in which no path is the beginning of another; when paths overlap, success depends on the order of the entries.
- Precedence.InitializeWinner: maps without YAML files, with name-only paths, below a dict root without arrays; `Replays.InitializeIsOverlay` covers all others, with the log in place of the winner.
