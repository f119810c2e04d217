# Print: a verified model of the logger's formatting core

`Print` is a Swift logging utility. Each call has a level (`debug`, `info`,
`warning`, `error`). A call passes when its level is at least the configured
one. It can be prefixed with a timestamp and with the call site's
"file function line: N". The same text goes to the console and is appended
to a per-day log file. Values are rendered by a copy of the Swift standard
library's `print` machinery: `_print`, `_print_unlocked` and
`_adHocPrint_unlocked`.

This project models the pure part of that pipeline in Dafny. It has five modules:

- `Options`: the optional type.
- `Strings`: `joined(separator:)`, `components(separatedBy:)` with a
  one-character separator, and the decimal rendering of an `Int`. Joining and
  splitting are proved inverse to each other.
- `Levels`: the `Level` enumeration, its raw values and the gate.
- `Formatter`: values as explicit data instead of run-time reflection.
  - A `Value` is a `String`, an `Optional`, or another value. Another value
    has its protocol capabilities (`Caps`) and what its `Mirror` shows.
  - `PrintUnlocked` is the capability dispatch. `AdHocPrint` is the structural
    rendering.
  - `WriteTuple` and `WriteStruct` are the source's loops with their `first`
    flag. Each is proved equal to a join-based definition.
- `Logger`: the prefix, the text of one job, `_print` (with its loop in
  `WriteItems`), the directory normalisation of `createDirectory`, the log
  file name, `Print.level` and the four wrappers.

The standard library's `_debugPrint_unlocked` and Optional's `debugDescription`
are not part of this model. They stay uninterpreted: they are the two function
fields of a `Runtime` value, which every rendering takes as a parameter. The
runtime queries are fields of the `Mirror` datatype:
- `_getEnumCaseName` with its UTF-8 check;
- `_opaqueSummary`;
- the metatype cast.

`_typeName` is the pair of names in `TypeName`.

Notes on the code:
- The level comparison sits inside `queue.async`
  (Sources/Print/Print.swift:135-137). It reads the configuration when the job
  runs, not at the call. `Logger.Log` therefore takes the configuration in
  force when the job runs.
- `_print_unlocked` hands every optional, present or absent, to Optional's
  `debugDescription`, which is uninterpreted here. The ad-hoc optional branch
  debug-prints the string `"nil"` for an absent child.
- A mirror with a display style other than optional, tuple, struct or enum
  (class, collection, dictionary, set) renders as the qualified type name,
  even in display mode (line 339).
- The log file name is built from the configured path as given, while the
  directory is created from the path with a "/" added. `Logger.Log` models
  this as written. `Logger.LogIntended` places the file inside the directory
  (see Findings).

## Model

| member | source | states |
|---|---|---|
| Levels.Rank | Sources/Print/Print.swift:11-23 | the raw values follow the declaration order: `debug` 0, `info` 1, `warning` 2, `error` 3, `max` 4 |
| Levels.FromRank | Sources/Print/Print.swift:11-23 | a raw value names a level exactly when it is between 0 and 4, and that level has that raw value |
| Levels.RankRoundTrip | Sources/Print/Print.swift:11-23 | every level is recovered from its raw value, so the raw values are distinct |
| Levels.Emits | Sources/Print/Print.swift:137 | each configured level lets through itself and the levels declared after it, and no others |
| Levels.GateTotal | Sources/Print/Print.swift:137 | for any two levels one passes the other's gate; both pass each other only when equal |
| Levels.GateMonotone | Sources/Print/Print.swift:137 | lowering the configured level never silences a call that passed before |
| Levels.GateExtremes | Sources/Print/Print.swift:137 | with the configured level `max` only `max` passes; with `debug` every level passes |
| Strings.Join | Sources/Print/Print.swift:151 | the joined length is the parts' total length plus one separator between each pair of neighbours; the result starts with the first part |
| Strings.JoinSnoc | Sources/Print/Print.swift:243-251 | appending a part adds exactly one separator before it, as the loop's `prefix` does |
| Strings.Split | Sources/Print/Print.swift:148 | there is always at least one component, and no component contains the separator |
| Strings.SplitJoin | Sources/Print/Print.swift:148 | joining the components with the separator gives back the string |
| Strings.JoinSplit | Sources/Print/Print.swift:148 | splitting a join of separator-free parts gives back the parts |
| Strings.LastComponent | Sources/Print/Print.swift:148 | the file's last component is the "/"-free suffix of the path that is either the whole path or starts right after a "/" |
| Strings.LastComponentWithout | Sources/Print/Print.swift:148 | a path without "/" is its own last component |
| Strings.NatToString | Sources/Print/Print.swift:148 | the rendering of a line number is non-empty decimal digits without a leading zero |
| Strings.IntToString | Sources/Print/Print.swift:148 | an `Int` renders as digits, after a "-" when negative, with no leading zero: canonical decimal |
| Strings.IntToStringRoundTrip | Sources/Print/Print.swift:148 | reading an `Int`'s rendering back gives the number |
| Formatter.FirstPresent | Sources/Print/Print.swift:378-391 | the first present capability is chosen; nothing is chosen exactly when none is present |
| Formatter.PrintUnlocked | Sources/Print/Print.swift:357-395 | a `String` is written verbatim; an optional goes through Optional's debug description; any other value is rendered by its first capability in the order stream, description, debug description, and only without any from its mirror in display mode |
| Formatter.AdHocPrint | Sources/Print/Print.swift:262-353 | an optional mirror debug-prints its child, or the string "nil" when it has none; tuples and structs are parenthesised, structs after their type name; a case without payload is its name, qualified in debug mode; other display styles give the qualified type name in both modes; a metatype gives the denoted type's name; an unstyled value gives its opaque summary, or else the qualified type name |
| Formatter.Labelled | Sources/Print/Print.swift:303-304 | exactly the labelled children are kept, and when every child is labelled the list is unchanged |
| Formatter.LabelledAppend | Sources/Print/Print.swift:303-304 | the labelled children of a concatenation are those of each part, in order, so the mirror's order and multiplicity are kept |
| Formatter.StructFieldsLabelled | Sources/Print/Print.swift:303-313 | a struct writes one `label: value` field per labelled child, in the mirror's order |
| Formatter.MirrorOnlyWithoutCaps | Sources/Print/Print.swift:378-394 | a value with any capability renders the same whatever its mirror shows |
| Formatter.ModeMattersOnlyForNames | Sources/Print/Print.swift:266-340 | optional, tuple, other-style and opaque renderings are the same in debug and display mode |
| Formatter.TupleOfUnlabelled | Sources/Print/Print.swift:279-298 | a tuple without shown labels renders as "(" + its children's debug texts joined by ", " + ")" |
| Formatter.HiddenLabelsDroppable | Sources/Print/Print.swift:289-294 | empty and positional (".") labels are never shown: dropping them leaves the tuple's text unchanged |
| Formatter.StructSkipsUnlabelled | Sources/Print/Print.swift:299-315 | a struct's fields are those of its labelled children alone, in order |
| Formatter.StructWithoutLabels | Sources/Print/Print.swift:299-315 | a struct without labelled children renders as its type name and "()" |
| Formatter.EnumDebugQualifies | Sources/Print/Print.swift:317-324 | with a known case name, the debug form is the qualified type name, ".", then the display form |
| Formatter.EnumUnknownCase | Sources/Print/Print.swift:325-328 | without a valid case name, the enum renders as if its case were named after its type |
| Formatter.EnumPayloadPlacement | Sources/Print/Print.swift:329-337 | a case without payload is its bare name; a tuple payload follows the name directly, any other payload is parenthesised |
| Formatter.WriteTupleField | Sources/Print/Print.swift:289-296 | one tuple element is the label and ": " only when the label is present, non-empty and not positional, then the value's debug text |
| Formatter.WriteTuple | Sources/Print/Print.swift:279-298 | the `first`-flag loop writes exactly the join-based tuple rendering, which starts with "(" and ends with ")" |
| Formatter.WriteStruct | Sources/Print/Print.swift:299-315 | the `first`-flag loop, which moves the flag only on labelled children, writes exactly the join-based struct rendering |
| Logger.NormalizeDir | Sources/Print/Print.swift:105-110 | an empty path stays empty; a non-empty one ends in "/" afterwards; the path is kept as a prefix with at most one character added; a path ending in "/" is unchanged |
| Logger.NormalizeDirIdempotent | Sources/Print/Print.swift:105-110 | normalising twice is normalising once |
| Logger.LogFileAsWritten | Sources/Print/Print.swift:164-166 | the job names the file as the configured path, as given, followed by "<day>.log" |
| Logger.LogFileOutsideDirectory | Sources/Print/Print.swift:164-166 | for "/var/log/app" the file named is "/var/log/app2024-01-01.log", which is outside the created directory "/var/log/app/" |
| Logger.LogFile | Sources/Print/Print.swift:164-166 | the corrected file name is the normalised directory followed by "<day>.log" |
| Logger.LogFileAgrees | Sources/Print/Print.swift:164-166 | the as-written and corrected names agree exactly for an empty path or one ending in "/" |
| Logger.LocationSlashes | Sources/Print/Print.swift:148 | an annotation contains a "/" only if the function name does |
| Logger.Location | Sources/Print/Print.swift:148 | the annotation is the path's last component, which is "/"-free and is the whole path or follows its last "/", then " ", the function, " line: " and a number that reads back as the line |
| Logger.PrefixParts | Sources/Print/Print.swift:139-149 | the timestamp is collected when `isTime`, the location when `isFileFunctionLine`, timestamp first |
| Logger.Prefix | Sources/Print/Print.swift:139-151 | the prefix is empty, the timestamp, the location, or timestamp + separator + location, by the two flags |
| Logger.PrefixEmpty | Sources/Print/Print.swift:139-151 | the prefix is empty exactly when the location is off and the timestamp is off or empty |
| Logger.PrintItems | Sources/Print/Print.swift:237-252 | `_print` ends with exactly the terminator; no items give just the terminator; one item gives its rendering and the terminator |
| Logger.WriteItems | Sources/Print/Print.swift:237-252 | the loop that writes the separator before every item but the first produces the renderings joined by the separator, then the terminator |
| Logger.JobText | Sources/Print/Print.swift:184-189 | a job writes the prefix and the separator only when the prefix is non-empty, then the value's rendering and the terminator |
| Logger.Log | Sources/Print/Print.swift:137-189 | a call writes exactly when its raw value is at least the configured one; the text is (prefix + separator, if the prefix is non-empty) + rendering + terminator; the file is the configured path as given, followed by "<day>.log" |
| Logger.LogIntended | Sources/Print/Print.swift:137-189 | the same gate and text as `Log`, with the file named inside the normalised directory |
| Logger.LogIntendedAgrees | Sources/Print/Print.swift:164-166 | for a call that passes the gate, the intended job equals the one as written exactly when the path is empty or ends in "/" |
| Logger.Debug | Sources/Print/Print.swift:205-208 | `debug` forwards with level `debug` and writes only when the configured level is `debug` |
| Logger.Info | Sources/Print/Print.swift:213-216 | `info` forwards with level `info` and writes only at the configured levels `debug` and `info` |
| Logger.Warning | Sources/Print/Print.swift:221-224 | `warning` forwards with level `warning` and writes unless the configured level is `error` or `max` |
| Logger.Error | Sources/Print/Print.swift:229-232 | `error` forwards with level `error` and writes unless the configured level is `max` |
| Logger.MaxSilencesWrappers | Sources/Print/Print.swift:205-232 | with the configured level `max` none of the four wrappers writes anything |
| Logger.InfoLevelExample | Sources/Print/Print.swift:133-232 | at level `info` without annotations and with the default separator and terminator, `debug("x")` writes nothing; `info("hello")` and `error("boom")` write "hello\n" and "boom\n" to the same day's file |

## Left out

- The serial `DispatchQueue` (lines 78, 135) and the ordering it gives is concurrency. The model covers what one job computes.
- Filesystem I/O is left out: `FileManager` existence checks, directory and file creation and their failures (lines 112-127, 164-174), and `FileHandle` open, seek, write and close. Also left out are the skip of text that fails to encode (lines 28-66) and the printing of caught errors (lines 121, 195). A job's `Record` says what would be written and where.
- `format(_:string:)`, `DateFormatter` and `Date()` (lines 88-94, 143, 166) depend on the clock and the locale. The formatted timestamp and day are inputs (`Clock`).
- The console `print` and the `#if DEBUG` switch around it (lines 153-162) are left out. The console receives the same `_print` composition as the file, so a `Record` carries one text for both.
- The stream locking in `_print` (lines 244-245) is left out. Renderings return the text instead of writing to a stream.
- `_debugPrint_unlocked`, Optional's `debugDescription`, `_typeName`, `_getEnumCaseName`, `_opaqueSummary`, `Mirror` and `_openExistential` (lines 254-258, 266-269, 317-318, 330, 341-351, 367, 393) are runtime and standard-library code whose source is not part of this model. They appear as `Runtime` functions and datatype fields, with no behaviour specified.
- Formatter.PrintUnlocked: does not state that an absent optional prints as `nil`, because that text comes from Optional's `debugDescription`, which is left uninterpreted.
- Default arguments are not default parameters here. `separator: " "` and `terminator: "\n"` (lines 133, 205-232) are the constants `Logger.DefaultSeparator` and `Logger.DefaultTerminator`, and every call passes its separator and terminator explicitly. The `#file`, `#function` and `#line` defaults are supplied by the caller as a `CallSite`.
- Unicode grapheme clusters are left out. Swift compares `Character`s, which are grapheme clusters: `label[label.startIndex] != "."` (line 290), `path.last` (line 107) and `components(separatedBy:)` (line 148). The model compares single Unicode scalars, so results differ when a combining mark follows a "." or a "/". For example, Swift shows the label ".\u{301}x", and it adds a "/" to a path ending in "\u{600}/".

## Findings

| source | as written | input that shows it | evidently intended | confidence | as-written member | corrected member |
|---|---|---|---|---|---|---|
| Sources/Print/Print.swift:164-166 | the directory is created from the path with a "/" added, but the file name is built from the path as configured | `path` = "/var/log/app", day "2024-01-01": the directory "/var/log/app/" is created, but the file is "/var/log/app2024-01-01.log" | the day's file is created inside the log directory, "/var/log/app/2024-01-01.log" | medium, not executed | Logger.LogFileOutsideDirectory | Logger.LogIntended |
