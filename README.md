# LogEase in Dafny

A model of the sequential core of LogEase, a Swift logging library, with
proofs about it. The model covers three parts.

- **Destinations** (`BaseDestination`). A destination has an identifier, an
  output level, five display toggles and a formatter. The formatter renders
  one log line: an optional date, an optional `[LEVEL]` tag, an optional
  location bracket, an optional function name with its parameters stripped,
  and then `"> "` followed by the message.
- **File destination** (`FileDestination`). It appends each line to a log
  file. The file is rotated when it grows past `logFileMaxSize` and
  `logFileAmount > 1`. Rotation shifts numbered backups `stem.1.ext`,
  `stem.2.ext`, … up by one and drops the oldest.
- **Logger** (`LogEaseLogger`). It holds a registry of destinations, in which
  two destinations are the same when their identifiers are equal. Its fan-out
  sends one log call to every registered destination whose level filter
  accepts the call's level.

Modules, one per file:

| file | module | models |
|---|---|---|
| `optional.dfy` | `Optional` | Swift's `T?` |
| `strings.dfy` | `Strings` | splitting at the first or last separator (`components(separatedBy:)`), and Swift's decimal rendering of `Int` |
| `levels.dfy` | `Levels` | `LogEaseLogger.Level`: raw values and names |
| `base_destination.dfy` | `BaseDestinations` | path helpers, `stripParams`, the level filter, the line format (`Render`), class `Destination` with `FormatMessage` |
| `file_destination.dfy` | `FileDestinations` | rotated file names, the files of one log URL (class `Disk`), rotation and append, class `FileDestination` |
| `logger.dfy` | `Loggers` | the registry functions, `Delivery`, class `Logger` with add, remove, remove-all and `Custom` |

The model follows the code in these places:

- **Formatter inputs.** The date text is an input string, because the source's
  `DateFormatter` is never configured. The file name is interpolated into the
  location bracket exactly as passed (`BaseDestination.swift:151`).
- **The file system.** It is modelled as the files that belong to the
  configured log URL: a map from slot index to file contents.
  - Slot 0 is the active file.
  - Slot `k` is the backup at `MakeRotatedFileUrl(url, k)`.
  - `RotatedFileUrlsDistinct` proves that these paths are pairwise distinct
    and that none of them is the active file, so one slot per index is
    faithful.
  - A file's size is the length of its contents.
- **`rotateFile`.** It is an imperative loop over that map. It is proved
  against `Rotation`, which is defined by recursion over the loop's passes.
  `RotationAt` then states, slot by slot, what a rotation leaves behind.

## Model

| member | source | states |
|---|---|---|
| Levels.RawValue | Sources/LogEase/LogEaseLogger.swift:7-13 | `rawValue` is a level's position in declaration order: it is below 5 and the level sits at that position. |
| Levels.Name | Sources/LogEase/LogEaseLogger.swift:14-27 | `string` is a non-empty upper-case word. |
| Levels.FromRawValue | Sources/LogEase/LogEaseLogger.swift:7-13 | The raw-value initialiser succeeds exactly for 0 to 4, and yields the level with that raw value. |
| Levels.RawValuesFollowDeclarationOrder | Sources/LogEase/LogEaseLogger.swift:7-13 | The raw values are 0 to 4 in declaration order (verbose, debug, info, warning, error), and every level sits at its raw value in that order. |
| Levels.RawValueRoundTrip | Sources/LogEase/LogEaseLogger.swift:7-13 | Decoding a level's raw value gives the level back. |
| Levels.NamesAreDistinctUpperCaseWords | Sources/LogEase/LogEaseLogger.swift:14-27 | Every level's `string` is a non-empty upper-case word, and two levels have the same name only if they are the same level. |
| Strings.AfterLast | Sources/LogEase/BaseDestination.swift:241-247 | The last component after splitting at `c`: a suffix of the input that contains no `c` and is either the whole input or preceded by `c`. |
| Strings.BeforeFirst | Sources/LogEase/BaseDestination.swift:250-260 | The first component after splitting at `c`: a prefix of the input that contains no `c` and is either the whole input or followed by `c`. |
| Strings.AfterLastAppend | Sources/LogEase/BaseDestination.swift:241-247 | Appending text that contains no `c` extends the last component by that text. |
| Strings.AfterLastSplits | Sources/LogEase/BaseDestination.swift:241-247 | When `c` occurs, the input is the text before its last `c`, then `c`, then the last component, which is shorter than the input. |
| Strings.AfterLastSeparator | Sources/LogEase/BaseDestination.swift:241-247 | The last component of `s + c + t` is `t` when `t` contains no `c`. |
| Strings.NatToDecimal | Sources/LogEase/BaseDestination.swift:151-153 | The rendering of a line number is a non-empty string of decimal digits. |
| Strings.DecimalRoundTrip | Sources/LogEase/BaseDestination.swift:151-153 | Reading the digits back gives the number. |
| Strings.IntToString | Sources/LogEase/BaseDestination.swift:151-153 | Swift's decimal rendering of an `Int`: non-empty, with a leading "-" exactly for negative numbers. `IntToStringRoundTrip` proves that it reads back. |
| Strings.IntToStringRoundTrip | Sources/LogEase/FileDestination.swift:122-126 | `"\(index)"` starts with "-" exactly for negative numbers, is followed by digits only, and parses back to the same integer. |
| Strings.IntToStringInjective | Sources/LogEase/FileDestination.swift:122-126 | Two integers render to the same text only if they are equal. |
| BaseDestinations.FileNameOfFile | Sources/LogEase/BaseDestination.swift:241-247 | The result is the segment after the last "/". It contains no "/", and a path without "/" is returned unchanged. |
| BaseDestinations.FileNameWithoutSuffix | Sources/LogEase/BaseDestination.swift:250-260 | The result is the base name up to its first ".", and "" when the base name is empty. |
| BaseDestinations.StripParams | Sources/LogEase/BaseDestination.swift:329-336 | The result is the signature up to its first "(" followed by "()". It ends in "()", and a signature without "(" just gains "()". |
| BaseDestinations.StripParamsHasOneParenthesis | Sources/LogEase/BaseDestination.swift:329-336 | The stripped signature contains exactly one "(". |
| BaseDestinations.Passes | Sources/LogEase/BaseDestination.swift:320-326 | The level filter: a level passes when its raw value is at least the output level's. The three lemmas below state what that means for the order of levels. |
| BaseDestinations.Destination.ShouldLevelBeLogged | Sources/LogEase/BaseDestination.swift:320-326 | `shouldLevelBeLogged` is `Passes` of the destination's current output level. |
| BaseDestinations.PassesExactlyFromThreshold | Sources/LogEase/BaseDestination.swift:320-326 | A level passes exactly when its position in declaration order is at least the output level's; the output level itself passes. |
| BaseDestinations.DefaultThresholdPassesEverything | Sources/LogEase/BaseDestination.swift:320-326 | With the default output level `verbose`, every level passes. |
| BaseDestinations.PassesIsUpwardClosed | Sources/LogEase/BaseDestination.swift:320-326 | If a level passes, every more severe level passes too. |
| BaseDestinations.Render | Sources/LogEase/BaseDestination.swift:137-161 | The line `formatMessage` builds, as a function of the toggles. `FormatMessage` is proved equal to it, and the five lemmas below state its field order. |
| BaseDestinations.DateFieldComesFirst | Sources/LogEase/BaseDestination.swift:142-144 | When shown, the date and a space lead the line, and the rest is the line without the date. |
| BaseDestinations.LevelTagFollowsDate | Sources/LogEase/BaseDestination.swift:146-148 | After the date, a shown level yields `"[" + name + "] "` followed by the line without the tag. |
| BaseDestinations.LocationFollowsLevelTag | Sources/LogEase/BaseDestination.swift:150-154 | The location bracket is `[file:line] `, `[file] `, `[line] ` or nothing, depending on the two toggles. |
| BaseDestinations.FunctionNamePrecedesMessage | Sources/LogEase/BaseDestination.swift:156-160 | The last field before the separator is the stripped function name and a space, when shown. |
| BaseDestinations.LineEndsWithMessage | Sources/LogEase/BaseDestination.swift:160 | Every line ends with `"> " + msg`. With all toggles off, the line is exactly that. |
| BaseDestinations.Destination.constructor | Sources/LogEase/BaseDestination.swift:44-63 | A new destination keeps its identifier, is asynchronous, has output level `verbose` and has all five toggles on. |
| BaseDestinations.Destination.FormatMessage | Sources/LogEase/BaseDestination.swift:137-161 | The appended details equal `Render` of the destination's toggles. The lemmas above state the field order that this implies. |
| FileDestinations.PathExtension | Sources/LogEase/FileDestination.swift:122-126 | `pathExtension`: the text after the last "." of the last path component, or "". `DeletingPathExtension` and `SplitAtExtension` state its properties. |
| FileDestinations.DeletingPathExtension | Sources/LogEase/FileDestination.swift:122-126 | When the last component has a ".", the path is the stem, a "." and an extension that contains no ".". Without one, the stem is the whole path and the extension is empty. |
| FileDestinations.SuffixSplits | Sources/LogEase/FileDestination.swift:122-126 | Splitting the last component at a "." splits the whole path there. |
| FileDestinations.FileNameOfJoined | Sources/LogEase/FileDestination.swift:122-126 | The last component of `stem.ext` is the last component of `stem` followed by `.ext`. |
| FileDestinations.SplitAtExtension | Sources/LogEase/FileDestination.swift:122-126 | `stem.ext`, with an `ext` free of "." and "/", has extension `ext` and stem `stem`. |
| FileDestinations.MakeRotatedFileUrl | Sources/LogEase/FileDestination.swift:122-126 | The backup path for an index: the stem, ".", the index, "." and the extension. `RotatedFileUrlShape` and `RotatedFileUrlsDistinct` state its shape and injectivity. |
| FileDestinations.RotatedFileUrlShape | Sources/LogEase/FileDestination.swift:122-126 | The backup path of `stem.ext` for `index` is `stem.<index>.ext`. |
| FileDestinations.RotatedFileUrlsDistinct | Sources/LogEase/FileDestination.swift:122-126 | Backup paths for different indices differ, and no backup path equals the log file's own path. |
| FileDestinations.Disk.constructor | Sources/LogEase/FileDestination.swift:22 | The files of one log URL, as seen through `FileManager`: a map from slot index to contents, starting as given. |
| FileDestinations.Appended | Sources/LogEase/FileDestination.swift:145-176 | Appending creates the active file if it is missing and puts the data after its old contents. Every backup is left unchanged. |
| FileDestinations.Rotation | Sources/LogEase/FileDestination.swift:94-120 | The files after `rotateFile`: the loop's passes from the oldest index down, then the final move. `RotationAt` states its effect slot by slot. |
| FileDestinations.ShiftedAt | Sources/LogEase/FileDestination.swift:99-112 | After the loop's passes from `last` down to `index + 1`, each slot from `index + 2` to `last` holds what the slot below it held. The old oldest file is gone, and every other slot is untouched. |
| FileDestinations.SlotAboveIsFree | Sources/LogEase/FileDestination.swift:106-110 | Below the oldest index, the slot a pass moves into has already been emptied, so the loop's move never meets an existing file. |
| FileDestinations.RotationAt | Sources/LogEase/FileDestination.swift:94-120 | With `logFileAmount > 1`, backup `k` for `1 <= k < amount` holds what slot `k - 1` held, so backup 1 holds the old active file. The active file is gone, and slots from `amount` on are untouched. |
| FileDestinations.RotationDue | Sources/LogEase/FileDestination.swift:74-85 | `validateSaveFile`'s test: rotation is enabled, the active file exists, and its size is strictly greater than the limit. `RotationOnlyWhenOversized` states the consequence. |
| FileDestinations.Validated | Sources/LogEase/FileDestination.swift:73-92 | The files after `validateSaveFile(str)`. Without a URL nothing changes. With one, the active file exists and ends with `str + "\n"`. |
| FileDestinations.RotationKeepsBackupsBounded | Sources/LogEase/FileDestination.swift:96-116 | If only slots below `logFileAmount` are occupied before a rotation, only backups 1 to `amount - 1` exist after it, at most `amount - 1` files. |
| FileDestinations.RotatedHistory | Sources/LogEase/FileDestination.swift:94-120 | After a rotation, the text in the first `n` slots, oldest first, is what the first `n - 1` slots held before. |
| FileDestinations.RotationKeepsHistoryOrder | Sources/LogEase/FileDestination.swift:94-120 | A rotation drops the oldest backup's text from the front of the log history and keeps the rest in order. |
| FileDestinations.AppendedHistory | Sources/LogEase/FileDestination.swift:130-137 | Appending to the active file appends to the end of the log history. |
| FileDestinations.ValidatedKeepsHistoryOrder | Sources/LogEase/FileDestination.swift:73-92 | Each save ends the history with `str + "\n"`. A due rotation drops exactly the oldest backup's text from the front; otherwise nothing is dropped. |
| FileDestinations.RotationOnlyWhenOversized | Sources/LogEase/FileDestination.swift:73-90 | Unless rotation is enabled, the active file exists and its size is strictly greater than the limit, a save only appends. A size equal to the limit never rotates. |
| FileDestinations.SavedLinesInOrder | Sources/LogEase/FileDestination.swift:130-137 | Saving several lines without rotation leaves them, in order and each followed by "\n", after the file's old contents, and touches no backup. |
| FileDestinations.FileDestination.constructor | Sources/LogEase/FileDestination.swift:12-30 | A new file destination uses the given URL and identifier, does not sync after each write, has a 5 MiB size limit and has a file amount of 1, so rotation is off. Its shared state has the defaults of the base initialiser: asynchronous, output level `verbose`, all five toggles on. |
| FileDestinations.FileDestination.Send | Sources/LogEase/FileDestination.swift:63-70 | Returns the line rendered by the shared formatter, and leaves the files as `validateSaveFile` of that line leaves them. |
| FileDestinations.FileDestination.ValidateSaveFile | Sources/LogEase/FileDestination.swift:73-92 | Returns true exactly when a URL is set. Without a URL nothing is written; otherwise a due rotation happens first and then the line is appended. |
| FileDestinations.FileDestination.RotateFile | Sources/LogEase/FileDestination.swift:94-120 | The loop and the final move together leave the files exactly as `Rotation` (see `RotationAt`). |
| FileDestinations.FileDestination.SaveToFile | Sources/LogEase/FileDestination.swift:130-137 | Returns false and writes nothing without a URL. Otherwise it appends `str + "\n"` to the active file and returns true. |
| FileDestinations.FileDestination.Write | Sources/LogEase/FileDestination.swift:139-188 | Creates the active file if it is missing, appends the data at its end and reports success. |
| FileDestinations.FileDestination.DeleteLogFile | Sources/LogEase/FileDestination.swift:192-201 | Returns true. With a URL set, the active file no longer exists afterwards and every other slot is unchanged. Without a URL, nothing changes. |
| Loggers.Added | Sources/LogEase/LogEaseLogger.swift:40-45 | Adding registers the identifier and keeps every existing entry. A new destination is filed under its identifier. The registry grows by one exactly when the identifier was absent. |
| Loggers.Removed | Sources/LogEase/LogEaseLogger.swift:47-52 | Removing drops exactly the given identifier and keeps every other entry. The registry shrinks by one exactly when the identifier was present. |
| Loggers.UpdatesStayKeyed | Sources/LogEase/LogEaseLogger.swift:40-52 | Adding and removing keep every entry filed under its own identifier. |
| Loggers.AddThenRemoveRestores | Sources/LogEase/LogEaseLogger.swift:40-52 | Adding an absent identifier and then removing it restores the registry. |
| Loggers.AddIsIdempotent | Sources/LogEase/LogEaseLogger.swift:40-45 | A second add with the same identifier changes nothing. |
| Loggers.RemoveIsIdempotent | Sources/LogEase/LogEaseLogger.swift:47-52 | A second remove changes nothing, and removing an absent identifier changes nothing. |
| Loggers.NoneAccepting | Sources/LogEase/LogEaseLogger.swift:94-96 | The set of accepting destinations is empty exactly when no registered destination accepts the level. |
| Loggers.ProgressDeliver | Sources/LogEase/LogEaseLogger.swift:95-105 | Visiting an accepting destination adds one delivery of the call and one evaluation of the message, and keeps every delivery to a distinct accepting destination. |
| Loggers.ProgressSkip | Sources/LogEase/LogEaseLogger.swift:94-95 | Visiting a destination that does not accept the level delivers nothing. |
| Loggers.ProgressDone | Sources/LogEase/LogEaseLogger.swift:93-107 | Once the snapshot is exhausted, the deliveries went to exactly the accepting destinations, once each, with one evaluation per delivery. |
| Loggers.Logger.constructor | Sources/LogEase/LogEaseLogger.swift:30-33 | The logger starts with the given registry. |
| Loggers.Logger.AddDestination | Sources/LogEase/LogEaseLogger.swift:40-45 | The registry becomes `Added(old registry, destination)`. |
| Loggers.Logger.RemoveDestination | Sources/LogEase/LogEaseLogger.swift:47-52 | The registry becomes `Removed(old registry, destination.identifier)`. |
| Loggers.Logger.RemoveAllDestinations | Sources/LogEase/LogEaseLogger.swift:54-58 | The registry is empty. |
| Loggers.Logger.Custom | Sources/LogEase/LogEaseLogger.swift:91-108 | Delivers to exactly the destinations whose filter accepts the level, once each. Every delivery carries the call's level, message, file, function and line, and is queued exactly when its destination is asynchronous. The message is evaluated once per accepting destination, and never when none accepts. |

## Left out

- `ConsoleDestination` is not part of this model: it only prints the base formatter's line.
- Dispatch queues and concurrency (`queue.sync`, `queue.async`, barriers) are left out. Registry updates and deliveries happen one at a time. `Custom` records each `send` as a `Delivery` value, instead of calling into a destination subclass it cannot see.
- Loggers.Logger.Custom: the order of deliveries is not stated, because a Swift `Set` is iterated in an unspecified order.
- Loggers.Logger.Custom: `message` stands for the text that every evaluation of the source's `@autoclosure` yields. A closure with side effects or changing output could give different destinations different text; the model gives every delivery the same text, and models only how many times the closure is evaluated.
- The leveled wrappers `verbose`, `debug`, `info`, `warning` and `error` only forward a fixed level to `custom`, so they are not modelled separately.
- `Date()` and `DateFormatter`: the date text is an input of `FormatMessage` and `Send`.
- Identifiers: UUID generation is left out; the identifier is a constructor parameter.
- FileDestinations.FileDestination: `logFileURL` is fixed when the destination is created, because `disk` holds the files of that one URL. Reassigning the source's `public var logFileURL` to another path, which would make later writes go to other files, is not modelled.
- `FileDestination`'s platform default log path (`FileDestination.swift:32-59`) is left out. The constructor takes the already resolved URL, or `None`.
- The unused `format`, `reset`, `escape`, `queue` and `startDate` fields are left out.
- `NSFileCoordinator`, `FileHandle`, `synchronizeFile`, directory creation and the iOS file-protection attributes are left out. `Write` is an append to the active slot.
- FileDestinations.FileDestination.Write: I/O errors are not modelled, so it always reports success.
- FileDestinations.FileDestination.DeleteLogFile: a failing `removeItem` is not modelled, so it never returns false.
- FileDestinations.FileDestination.RotateFile: I/O errors are not modelled. The only throw represented is a `moveItem` onto an existing file or from a missing one. The loop never attempts such a move (`SlotAboveIsFree`). The final move is skipped in that case, as the `catch` would skip it. The effect of an error in the middle of the loop is not modelled.
- FileDestinations.FileDestination.ValidateSaveFile: a failing `attributesOfItem` is not modelled, and the file size is the number of characters rather than UTF-8 bytes.
- The model treats `url.path` as the URL string. Foundation's URL normalisation is left out: percent-encoding, trailing "/", and hidden files whose only "." starts the name.
- The base class `send` is `FormatMessage`; `FileDestination.Send` calls it directly, without dynamic dispatch.
