# think-log in Dafny

A model of the two core classes of the `lishaoen/think-log` PHP logger, with
proofs about them.

- **`Log`, the request-scoped aggregator.** `record` buffers messages per
  level, or writes them at once under the command line. `save` flushes the
  buffer through a driver, filtered by the level allow-list and guarded by the
  authorisation key. `write`, `close`, `clear`, `key` and the level-named
  wrappers are modelled too.
- **`driver\File`, the file sink.**
  - Its constructor and `setCustominfo`.
  - The path logic:
    - the main file per day or month;
    - `single` mode;
    - `max_files` pruning;
    - apart-level files;
    - size rotation.
  - `save`, which renders each level's messages, sends apart levels to their
    own files and appends the rest to the main file.
  - `write`, which assembles a record of `timestamp`, `log_type` and one field
    per level.
  - The two serialisations of a record:
    - `parseLog`, for a web request;
    - `parseCliLog`, for the command line.
  - `array2string`.

## Layout

- `php.dfy` (`Php`): the PHP value semantics the code relies on.
  - Ordered arrays with string keys, modelled as `seq<(string, V)>`.
  - `$a[$k]`, `$a[$k] = $v`, `unset`, `+`, `array_merge`.
  - `empty()`, `implode`, integer printing.
- `strtr.dfy` (`Strtr`): `strtr($msg, $pairs)` with longest-match scanning, and
  the `{name}` placeholder table built by `record`.
- `log.dfy` (`Log`): the aggregator.
  - A `Logger` value holds the buffer, the `allowWrite` flag, the key and the
    configuration.
  - Every public method is a function from the old state to the new one.
  - The driver is an oracle `Sink = Batch -> bool`.
  - Whether PHP runs on the command line is the parameter `cli`.
- `log_session.dfy` (`LogSession`): sequences of calls on one logger, and what
  a whole request delivers to the sink.
- `paths.dfy` (`Paths`): POSIX `dirname` and `basename`.
- `file_paths.dfy` (`FilePaths`): the driver configuration and every path it
  computes.
- `file_format.dfy` (`FileFormat`): line rendering, the record `write`
  assembles, `parseLog`, `parseCliLog` and `array2string`.
- `file_sink.dfy` (`FileSink`): the driver and its `save`. No filesystem is
  touched.
  - `save` is described by the ordered list of filesystem effects it issues:
    `Unlink`, `MakeDir`, `Rename` and `Append`.
  - What it observes is an input `Env`:
    - the `glob` listing;
    - existing directories and file sizes;
    - whether `error_log` succeeds on a path;
    - the clock, the request and the `cli` flag.
  - The bytes of an append are given by `Bytes`.

## Model

| member | source | states |
|---|---|---|
| Php.Set | src/driver/File.php:129 | `$a[$k] = $v`: reading `k` gives `v` and every other key is unchanged. An existing key keeps its place and a new key goes last. Distinct keys stay distinct |
| Php.Remove | src/driver/File.php:136 | `unset($a[$k])`: `k` is gone and every other key reads as before. The keys stay distinct, and a missing key leaves the array as it was |
| Php.RemoveLast | src/driver/File.php:136 | unsetting a key that was just appended to an array without it gives the original array back |
| Php.Union | src/driver/File.php:302 | `$a + $b`: `$a` is a prefix of the result. A key of `$a` reads from `$a`, any other key from `$b` |
| Php.Merge | src/driver/File.php:66 | `array_merge($a, $b)` on string keys: a key of `$b` reads from `$b`, any other key from `$a`, and the keys stay distinct |
| Php.NatToString | src/driver/File.php:250 | `time()` printed in decimal: digits only, no leading zero, and the digits read back (`Php.DecimalValue`, a left fold) as the number |
| Php.NatToStringInjective | src/driver/File.php:250 | different times print differently, so backup names and `log_type` keys never collide |
| Strtr.MatchLen | src/Log.php:134 | the longest key of the table starting at the front: that prefix is a key and no longer prefix is. `Strtr.Translate`, the `strtr` scan, replaces that match or copies one character |
| Strtr.EmptyTableIdentity | src/Log.php:134 | `strtr` with no pairs returns its subject |
| Strtr.Brace | src/Log.php:132 | `'{' . $key . '}'` starts with `{`, ends with `}` and holds the name between them |
| Strtr.Placeholders | src/Log.php:130-133 | the table maps `{name}` to the context's value for every context entry |
| Strtr.PlaceholderShape | src/Log.php:130-133 | every key of the table is `{name}` for a name in the context, so the table has nothing else |
| Strtr.PlaceholdersOpenWithBrace | src/Log.php:130-133 | every key of the table starts with `{` |
| Strtr.PlainPrefixCopied | src/Log.php:134 | text without `{` is copied verbatim ahead of whatever follows it |
| Strtr.NoBraceUnchanged | src/Log.php:129-135 | a message containing no `{` comes back unchanged, whatever the context |
| Strtr.SubstitutePlaceholder | src/Log.php:129-135 | when no context name contains `}`, `{name}` for a known name becomes its value, and the scan resumes after the placeholder |
| Strtr.KeepUnknownPlaceholder | src/Log.php:129-135 | when no context name contains `}`, `{name}` for a name without braces that the context lacks stays in the text |
| Strtr.TwoPlaceholders | src/Log.php:129-135 | when no context name contains `}`, `Strtr.Translate` over text and two known placeholders: `p1{n1}p2{n2}` reads `p1 v1 p2 v2` |
| Strtr.ValuesAreNotRescanned | src/Log.php:134 | when no context name contains `}`, a value `{other}` substituted for `{name}` stays `{other}`, whatever `other` maps to: values are not expanded again |
| Strtr.LongerNameWins | src/Log.php:129-135 | with both `a` and `a}x` in the context, `{a}x}` becomes the value of `a}x`: the longest key wins, so `{a}` is not replaced by the value of `a` |
| Log.New | src/Log.php:68-75 | a new logger has an empty buffer and no key. Writing is enabled exactly when `close` is not configured |
| Log.Init | src/Log.php:83-102 | `init` replaces the configuration and can only switch writing off. Buffer and key are untouched |
| Log.SetKey | src/Log.php:171-176 | `key` stores the key and changes nothing else |
| Log.Check | src/Log.php:184-191 | the write is refused exactly when a truthy key is set, `allow_key` is non-empty and does not list the key |
| Log.Interpolate | src/Log.php:129-135 | only a text message with a non-empty context is rewritten. A structured message stays structured. What the text becomes is stated by `Log.InterpolateText` |
| Log.InterpolateText | src/Log.php:129-135 | when no context name contains `}`, a text message `p{name}rest` with a known name and no `{` in `p` becomes `p`, the value, then `rest` translated on its own |
| Log.Record | src/Log.php:124-151 | closed: nothing happens. Command line: the message goes to the sink with `force` and the buffer stays. Otherwise: the message is appended to its level's list, every other level is untouched, and the custom metadata is merged with the newest value winning. The buffer stays well formed |
| Log.RecordSubstitutes | src/Log.php:129-147 | when no context name contains `}`, `record("user {u} id {id}", …)` with both names in the context buffers (or, on the command line, writes at once) the template with each placeholder replaced by its value |
| Log.Kept | src/Log.php:226-230 | non-empty custom metadata is unset before the flush and every level entry is kept. Empty metadata stays in the buffer |
| Log.AsBatch | src/Log.php:232-234 | with no level allow-list the whole buffer is sent, key for key, in buffer order |
| Log.Project | src/Log.php:237-242 | the allow-list loop copies exactly the listed levels that are buffered, after the entries already there, in allow-list order with a repeated name kept at its first place (`Log.ListedOrder`) |
| Log.Selected | src/Log.php:232-243 | the batch holds a level exactly when it passes the allow-list and is in the kept buffer, with its buffered messages. Its keys follow the buffer with no allow-list, and the allow-list order otherwise |
| Log.Save | src/Log.php:215-252 | empty or closed: true, with no call to the sink. Key refused: false, with the state unchanged. Otherwise the allow-listed levels reach the sink. Success clears the buffer; failure keeps every level entry, but the non-empty metadata is gone. A `log_custom` entry is sent only when the metadata was empty |
| Log.Write | src/Log.php:263-277 | an admitted level, or any level when forced, reaches the sink as a one-message batch and the result is the sink's. Anything else returns false and reaches nothing |
| Log.Close | src/Log.php:198-204 | writing is off and the buffer is empty |
| Log.Clear | src/Log.php:158-163 | the buffer is empty and the writing flag is unchanged |
| Log.LogAt | src/Log.php:288-291 | `log($level, …)` records the message under `$level`, or writes it at once on the command line |
| Log.LogNamed | src/Log.php:301-408 | each wrapper records under its own name, sends nothing when it buffers, and leaves every other named level untouched |
| Log.NamesApart | src/Log.php:23-31 | the nine level names differ from each other and from `log_custom` |
| LogSession.Step | src/Log.php:124-252 | every public call keeps the buffer well formed |
| LogSession.Run | src/Log.php:124-252 | any sequence of calls keeps the buffer well formed |
| LogSession.ClosedStaysClosed | src/Log.php:90-92 | once writing is off, no sequence of calls turns it back on |
| LogSession.NothingBufferedAfterClose | src/Log.php:126-128 | after `close`, whatever follows, nothing is buffered again |
| LogSession.RecordEntry | src/Log.php:140-147 | one served `record` appends the interpolated message to its level and changes no other level |
| LogSession.RecordAll | src/Log.php:140-147 | a run of served `record` calls keeps the flag, key and configuration |
| LogSession.RecordAllAppends | src/Log.php:142 | every level ends holding what it held plus the messages recorded under it, in call order. It has an entry exactly when it had one or something was recorded |
| LogSession.RecordedExactly | src/Log.php:142 | from an empty buffer, each level holds exactly the messages recorded under it |
| LogSession.FlushDeliversRecorded | src/Log.php:215-252 | a served request that records and then saves hands the sink, per level, exactly the recorded messages of the allow-listed levels, and nothing of other levels |
| LogSession.RetryResendsLevels | src/Log.php:226-249 | after a failed flush, a second `save` resends the same level entries |
| LogSession.UnlistedKeyKeepsBuffer | src/Log.php:221-224 | an unlisted key blocks the flush: false, with the logger unchanged |
| LogSession.ClosedLoggerStillWrites | src/Log.php:263-277 | `write` does not consult the writing flag: a closed logger still reaches the sink |
| Paths.StripSlashes | src/driver/File.php:250 | the path without its trailing `/`s: a prefix, not ending in `/`, and only `/`s were dropped |
| Paths.StripName | src/driver/File.php:250 | the path up to its last `/`: a prefix ending in `/` (or empty), and the dropped tail has no `/` |
| Paths.ChildPath | src/driver/File.php:250 | for `name` inside `dir/`, `Paths.Dirname` (PHP's `dirname`) gives the directory and `Paths.Basename` (`basename`) gives the name |
| Paths.SiblingPath | src/driver/File.php:250 | `dirname($f) . '/' . $name` lies in `$f`'s directory and is called `$name` |
| Paths.DirnameShape | src/driver/File.php:250 | `dirname` of a non-empty path is non-empty and ends in `/` only when it is the root |
| FilePaths.NormalizeBase | src/driver/File.php:71-75 | an empty (or "0") path becomes `<root>/logs/`. Any other path gets a trailing `/` if it lacks one. The result always ends in `/` |
| FilePaths.NormalizeIdempotent | src/driver/File.php:71-75 | normalising the path twice is normalising it once |
| FilePaths.NormalizeKeepsSlashed | src/driver/File.php:73-75 | a path that already ends in `/` is kept as given |
| FilePaths.MainDestination | src/driver/File.php:197-213 | the main file (`FilePaths.MainName` under the base path) is `<path><single>.log`, `<path>Ymd[_cli].log` or `<path>Ym/d[_cli].log` |
| FilePaths.MainPlacement | src/driver/File.php:197-213 | the main file's `basename` is its name and its `dirname` is the month directory or the base directory |
| FilePaths.ApartDestination | src/driver/File.php:223-238 | the apart file (`FilePaths.ApartName`) is `<dir>/<stem>_<level>[_cli].log`, inside the directory of the main file |
| FilePaths.ApartBesideMain | src/driver/File.php:223-238 | an apart file sits next to the main file, is named after its level, and is never the main file |
| FilePaths.ApartFilesDistinct | src/driver/File.php:223-238 | two different levels never share an apart file |
| FilePaths.PruneTarget | src/driver/File.php:187-195 | with `max_files` set and more listed files than it allows, the first listed file is deleted. Never more than one |
| FilePaths.RotationTarget | src/driver/File.php:246-254 | a file is rotated exactly when it exists and its size has reached `floor(file_size)` |
| FilePaths.RotationKeepsName | src/driver/File.php:246-254 | the backup stays in the file's directory, is named `<time()>-<name>`, and differs from the file |
| FileFormat.Untag | src/driver/File.php:129 | a text line read back: when it carries the level's tag, the line is that tag plus the message |
| FileFormat.RenderUntag | src/driver/File.php:129 | text-mode rendering is undone by removing the tag |
| FileFormat.RenderInjective | src/driver/File.php:129 | different messages of one level render to different lines, in text and in JSON mode |
| FileFormat.RenderAll | src/driver/File.php:125-130 | one line per message, in order, each `[ type ] msg` or the bare message |
| FileFormat.Indexed | src/driver/File.php:165 | `log_type[]` is a list with distinct keys: its `i`-th entry has a key reading back as `i` and holds the `i`-th level name, and looking up `i` finds that name |
| FileFormat.Body | src/driver/File.php:167 | the level fields have the levels' keys in order, and each one reads as that level's lines joined with CRLF |
| FileFormat.AssembleShape | src/driver/File.php:159-168 | the record `FileFormat.Assemble` builds through the loop `FileFormat.AddLevels` is `timestamp`, then `log_type` when there are levels, then each level's joined lines, in order |
| FileFormat.AddLevelsShape | src/driver/File.php:164-168 | the loop of `write` from any prefix of levels reaches the closed form of the whole record |
| FileFormat.AddOneLevel | src/driver/File.php:164-168 | one turn of the loop extends the closed form by exactly one level |
| FileFormat.PiecesConcat | src/driver/File.php:326-336 | the pieces (`FileFormat.Pieces`, the recursion of `array2string`) of two glued arrays are the pieces of each part, in order |
| FileFormat.JoinConcat | src/driver/File.php:338 | `implode` over a concatenation puts one separator between the two non-empty halves |
| FileFormat.Array2StringConcat | src/driver/File.php:323-339 | the text `FileFormat.Array2String` gives two glued arrays is each text, separated when both are non-empty |
| FileFormat.EmptyEntrySkipped | src/driver/File.php:327-329 | an empty value (`""`, `"0"`, `[]`) leaves no trace in the text |
| FileFormat.LeafPiece | src/driver/File.php:333-334 | a non-empty leaf is `key . kv . value` |
| FileFormat.FlattensToLeaves | src/driver/File.php:330-332 | nested arrays are flattened inline: when no nested array is hollow, the text is the joined list of all non-empty leaves at every depth |
| FileFormat.Combined | src/driver/File.php:302 | the request fields come first, then the custom fields `+` adds, then the record: both `$request_info` and `$request_info + $custominfo` are prefixes of the result, and the first array with a key decides its value |
| FileFormat.RequestFieldsWin | src/driver/File.php:302 | request fields shadow custom fields and the record, and custom fields shadow the record |
| FileFormat.RequestStamp | src/driver/File.php:288 | the merged fields carry this call's stamp as `timestamp` |
| FileFormat.RequestIp | src/driver/File.php:291 | `ip` is the request's address |
| FileFormat.RequestHost | src/driver/File.php:293 | `host` is the request's host |
| FileFormat.RequestMethod | src/driver/File.php:294 | `method` is the request's method |
| FileFormat.RequestUri | src/driver/File.php:295 | `uri` is the request's URL |
| FileFormat.RenumberNoInts | src/driver/File.php:309 | without integer keys nothing is renumbered |
| FileFormat.ParseLogText | src/driver/File.php:284-313 | `FileFormat.ParseLog` in text mode: the request fields (`FileFormat.RequestInfo`) and the custom fields go in front, `FileFormat.Unshift` puts the `FileFormat.Delimiter` line first (`FileFormat.Renumber` touches nothing), `FileFormat.DropShown` drops the five fields it shows, and `FileFormat.TextRecord` prints a CRLF, `0:` and the delimiter, the remaining fields one per line, then a CRLF |
| FileFormat.DelimiterLine | src/driver/File.php:308-312 | the delimiter becomes entry `0` in front of the fields. The five fields it shows are dropped |
| FileFormat.DelimiterNotFalsy | src/driver/File.php:308 | the delimiter is never skipped as empty |
| FileFormat.FrontEntryText | src/driver/File.php:323-339 | a leaf in front adds its piece, plus a separator when more text follows |
| FileFormat.DropShownFront | src/driver/File.php:310 | unsetting the shown fields keeps an entry with another key in front |
| FileFormat.FieldTexts | src/driver/File.php:270 | `implode` turns each value into its text, and an array into "Array" |
| FileFormat.CliOneLevel | src/driver/File.php:262-276 | `FileFormat.ParseCliLog` on a one-level text record gives `[stamp]`, "Array" for the level list, the lines, then a CRLF |
| FileFormat.OneLevelRecord | src/driver/File.php:159-168 | the record of one level is timestamp, a one-name `log_type` list and the joined lines |
| FileSink.MergeCustom | src/driver/File.php:88-90 | a non-empty array is merged over the current fields, its values winning. An empty one changes nothing |
| FileSink.NewDriver | src/driver/File.php:59-78 | the driver keeps the configuration with its path normalised. Its custom fields are the caller's over the three defaults |
| FileSink.SetCustominfo | src/driver/File.php:86-93 | `setCustominfo` merges over the current custom fields and leaves the configuration alone |
| FileSink.SetAll | src/driver/File.php:86-93 | any number of `setCustominfo` calls keep the configuration |
| FileSink.SetAllKeepsKeys | src/driver/File.php:86-93 | no `setCustominfo` call ever drops a custom key |
| FileSink.DefaultCustomKept | src/driver/File.php:51-55 | `uid`, `username` and `nickname` are always present, whatever callers merge in |
| FileSink.Rendered | src/driver/File.php:125-130 | each message becomes one line, a non-string through its `var_export` text |
| FileSink.WebTextBytes | src/driver/File.php:170-176 | a web text write (`FileSink.Bytes`) appends the `parseLog` layout: CRLF, `0:` and the delimiter of this request, the fields, CRLF |
| FileSink.CliTextBytes | src/driver/File.php:170-176 | a one-level command-line text write (`FileSink.Bytes`) appends `[stamp]Array`, CRLF, the level's lines, then a CRLF |
| FileSink.AppendsConcat | src/driver/File.php:115-145 | the appends of two effect lists are the appends of each, in order |
| FileSink.WriteFile | src/driver/File.php:154-178 | exactly one append of the message to the destination, preceded by a rename to the rotation target exactly when the file has reached the size limit. Nothing is deleted and no directory is made. The result is `error_log`'s |
| FileSink.Collect | src/driver/File.php:125-130 | a level with messages adds its rendered lines as a new last entry of `$info`. An empty level adds nothing |
| FileSink.UnsetCollected | src/driver/File.php:136 | unsetting the level right after collecting it restores `$info` |
| FileSink.Walk | src/driver/File.php:123-138 | the loop never puts a `log_type` key into `$info`, deletes nothing and makes no directory |
| FileSink.SizesAfterPrune | src/driver/File.php:187-195 | the writes see every existing file except the pruned one, at its old size |
| FileSink.Prelude | src/driver/File.php:117-120 | before any write: the first listed file is deleted exactly when `max_files` is set and the listing exceeds it, otherwise none; the log directory is made exactly when it does not exist; nothing is appended |
| FileSink.SaveWith | src/driver/File.php:115-145 | in both forms, the prune and `mkdir` come before every write, and over the whole call exactly the pruned file (one at most: the first listed) is deleted and exactly the missing log directory is made |
| FileSink.WalkLeavesMainLines | src/driver/File.php:123-138 | in both forms of the loop `$info` ends with exactly the rendered lines of the non-apart levels that had messages, in order |
| FileSink.WalkFollowsApartPlan | src/driver/File.php:132-136 | the corrected loop writes each apart level, alone, to its own file, in batch order |
| FileSink.WalkFollowsAsWrittenPlan | src/driver/File.php:123-138 | the loop as written writes each apart level's file with everything collected so far plus its own lines (`FileSink.AsWrittenPlan`) |
| FileSink.MainWrite | src/driver/File.php:140-144 | the main file gets the non-apart lines only when there are some. The result is true when there are none, else `error_log`'s on the main file |
| FileSink.Save | src/driver/File.php:115-145 | corrected `save`: the apart writes (`FileSink.ApartPlan`: one file per apart level, with its own lines) come first, then one write of the non-apart lines (`FileSink.MainLines`) to the main file (`FileSink.MainPlan`). The result is that write's. The prune deletes the first listed file exactly when `max_files` is exceeded, and the log directory is made exactly when missing |
| FileSink.SaveAsWritten | src/driver/File.php:115-145 | `save` as written: the appends are the as-written apart plan, then the main file with the non-apart lines. The result, the prune and `mkdir` are as in the corrected form |
| FileSink.AsWrittenCopiesEarlierLevel | src/driver/File.php:135 | as written, the file of the apart level at any position receives the lines of every earlier non-apart level, then its own |
| FileSink.DuplicatedIntoApart | src/driver/File.php:135 | for levels `a` then apart `b`, `save` as written appends `a`'s lines to both `b`'s file and the main file. The corrected form gives `b`'s file only `b`'s lines |

## Left out

- **Level names.**
  - A level called `log_custom` clashes with the reserved metadata key: PHP
    would append to that array. `Record` requires it away.
  - A level called `log_type` or `timestamp` collides inside `write`: PHP would
    overwrite the list or the stamp, or fail on `[]`. `Assemble` and the sink
    require `log_type` away.
- **Integer keys.** PHP converts numeric strings to integer keys. The model
  uses string keys throughout.
  - `array_merge` renumbering of integer keys is not modelled.
  - `array_unshift` renumbering is modelled by `Renumber`. The text layout
    lemmas assume no integer keys.
- **Placeholder values.** The context of `record` is modelled as a map from
  names to strings. PHP also accepts integers and booleans there (they print
  as their string conversion), arrays (`strtr` turns them into "Array" with a
  warning) and objects without `__toString` (which throw). Those values are
  not modelled.
- **Names containing `}`.** The placeholder lemmas assume no context name
  contains `}`. Without that, the longest key wins: a longer name such as
  `a}x` can take the match from the shorter placeholder `{a}`, as
  `Strtr.LongerNameWins` shows. `Strtr.Translate` itself models that case.
- **Loose comparison.** `in_array` with loose comparison is modelled as exact
  string equality.
- **Opaque encoders.**
  - `json_encode` output is opaque: `JsonLine(record)`.
  - `var_export` output is carried in `Msg.Structured`.
- **Request metadata.** The `Request` object's lookups (proxy headers, port
  handling) are inputs. `getLog`, `setRequest`, `__debugInfo` and the PSR
  interface are not part of this model.
- **Driver selection.** `init`'s driver lookup and its exception for an
  unknown class are left out, because the driver is the oracle `sink`.
- **Custom metadata in `Log::save`.** It passes the merged metadata to the
  driver's `save`, but `File::save` has a single parameter and ignores it. The
  sink therefore receives only the level map. `Log.Save` models that map.
- **Configuration merging.** `array_merge` of the configuration with the
  defaults is left out: `FileConfig` is the merged configuration.
  `time_format` only shapes the stamp, which is an input.
- **Clock and platform.**
  - The two `date()` calls of one write (in `write` and in `parseLog`) are
    assumed to give the same stamp.
  - Windows path separators are not modelled.
  - Concurrent writers are not modelled.
  - `glob` failing (`false`) and a negative `max_files` are not modelled.
- **File sizes within one `save`.** The sizes a rotation check sees are those
  after the prune. A file's growth during the same `save` is not tracked.
  The files one `save` writes are pairwise different
  (`FilePaths.ApartBesideMain`, `FilePaths.ApartFilesDistinct`), so each is
  checked once.
- **Serialised bytes.** An `Append` effect carries the message; the bytes are
  given separately by `FileSink.Bytes`.
- **Writing after `close`.** The documented behaviour says `write` is a no-op
  after `close`. The code never consults the flag in `write`, and the model
  follows the code (`LogSession.ClosedLoggerStillWrites`).
- **Empty custom metadata.** The documented behaviour says empty custom
  metadata is not merged. In the code, when nothing is stored yet the argument
  replaces the stored value, even when empty. The model follows the code.
- FileSink.Walk: its contract states only the absence of `log_type`, of
  deletions and of `mkdir`. What the loop writes and leaves is stated by
  `FileSink.WalkLeavesMainLines`, `FileSink.WalkFollowsApartPlan` and
  `FileSink.WalkFollowsAsWrittenPlan`.

## Findings

| source | as written | input that shows it | evidently intended | confidence | as-written member | corrected member |
|---|---|---|---|---|---|---|
| src/driver/File.php:135 | an apart level's file is written with the whole `$info` accumulated so far, including earlier non-apart levels | batch `[a => [m1], b => [m2]]` with `apart_level = [b]`: `b`'s file receives `a`'s and `b`'s lines, and `a`'s lines also reach the main file | `write([$type => $info[$type]], $filename)`, so the apart file gets only its own level | not executed | FileSink.SaveAsWritten, FileSink.AsWrittenCopiesEarlierLevel, FileSink.DuplicatedIntoApart | FileSink.Save |
