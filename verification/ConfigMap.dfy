/** The config map: `struct SConfMap` of include/sconf.h, without callbacks and help texts. */
module ConfigMap {

  import opened Basics

  /** A plain `char`, taken as signed. */
  type schar = c: int | -128 <= c < 128

  /** OtherEntry stands for dicts, arrays and unknown types, for which no source can provide a value. */
  datatype EntryType = StrEntry | IntEntry | BoolEntry | FloatEntry | YamlFileEntry | UsageEntry | OtherEntry

  datatype MapEntry = MapEntry(
    path: Option<string>, kind: EntryType, optsLong: Option<string>, optsShort: schar,
    env: Option<string>, default: Option<string>)
}
