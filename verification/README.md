# Window placement and dev-runner formatting, modelled in Dafny

This project models the two pieces of pure logic in an Electron application
boilerplate.

- **`winFactory`** restores a window's last position and size from a JSON file in
  the user-data directory. It merges that record over the default size. If no
  attached display fully contains the result, it centres the default size
  instead. When the window closes, it writes the geometry back. The logic
  appears twice, nearly word for word: `app/utils/util.js` (ES module) and
  `app/main_includes/util.js` (CommonJS). It is modelled once. The rows below
  cite both copies. The copies behave the same. They differ in module syntax
  (`import`/`const` against `require`/`let`), in line numbers and by the
  `ready-to-show` handler.
- **The dev runner** (`tasks/runner.js`) formats each chunk of a child's
  output. It prints a coloured command name, then the trimmed text with
  continuation lines indented, then a newline. The first stdout chunk that
  contains `VALID` starts electron, once.

Modules:

- `Options` (`options.dfy`): the `Option` type.
- `Geometry` (`geometry.dfy`): display rectangles, the window state,
  `windowWithinBounds`, the some-display test, `resetToDefaults` and
  `ensureVisibleOnSomeDisplay`.
- `WindowPersistence` (`window_persistence.dfy`): the stored record and the
  user-data directory, `restore`, `getCurrentPosition`, window creation and
  the close-time `saveState`, plus the cross-run properties.
- `ConsoleFormat` (`console_format.dfy`): `repeat`, `String.prototype.trim`,
  the newline indentation and `format`.
- `LaunchGuard` (`launch_guard.dfy`): the `isElectronOpen` / `VALID` guard,
  folded over stdout chunks.

Modelling choices:

- Window x and y are `real`. `resetToDefaults` divides by two, so a window can
  sit on a half pixel. Sizes and display bounds are integers.
- A state with no x or y (a first run) is never within any display. In the
  source, a comparison against `undefined` is false.
- The user-data directory is a map from file name to either a parsed record or
  text whose parse throws. `restore` treats a missing file (the read gives
  `undefined`, which `Object.assign` skips) and an unparseable one (the catch
  leaves `{}`) alike: both give exactly the defaults with no position.
- The live window, the list of displays and the primary display are inputs.
  They stand in for the calls to Electron's `BrowserWindow` and `screen`.
- A window session records whether the `close` listener is still attached.
  `saveState` removes it, so later close events do nothing.
- The runner's guard is a fold over the sequence of stdout chunks. It records
  whether electron is open and the indices of the chunks that started it.

Behaviour of the code that is easy to misread:

- `resetToDefaults` centres using only the primary display's width and height.
  It does not add the display's x/y offset (`app/utils/util.js:99-100`).
  `Geometry.ResetIgnoresPrimaryOffset` shows a primary display at (1920, 0)
  receiving a window outside its own bounds.
- The centred fallback is not always on screen. If the default size is larger
  than the primary display, or the primary display is not at the origin, the
  result may lie outside every display. `Geometry.ResetFitsPrimaryAtOrigin`
  states when it does fit.
- `saveState` always writes. A minimised or maximised window writes the
  unchanged in-memory state; the write is not skipped
  (`app/utils/util.js:125-128`). Write failures are neither caught nor
  reported.
- `/VALID/` also matches `INVALID`, so a chunk reporting an invalid bundle
  starts electron too (tasks/runner.js:64). `LaunchGuard.InvalidBundleLaunches`
  states this for one such chunk.
- The file name is always `window-state.json`. The `name` argument is unused.

## Model

| member | source | states |
|---|---|---|
| `Geometry.WithinBoundsIsContainment` | app/utils/util.js:84-88 | For a window of non-negative size, the four-edge test holds exactly when every point of the window's rectangle lies in the display's rectangle. A window without a position is never within bounds. |
| `Geometry.VisibleOn` | app/main_includes/util.js:108-110 | The `some` over the displays is true iff some display in the sequence contains the window on all four edges. |
| `Geometry.ResetToDefaults` | app/utils/util.js:96-102 | The fallback has the default width and height. Its position satisfies 2x = primary.width - width and 2y = primary.height - height, with no display offset added. |
| `Geometry.EnsureVisible` | app/utils/util.js:110-118 | The result always has a position. A state some display contains is returned unchanged. A state no display contains is replaced by the default-size rectangle centred by width and height. |
| `Geometry.EnsureVisibleOutcome` | app/main_includes/util.js:111-115 | Any two states that no display contains give the same result: the centred default, independent of their values. |
| `Geometry.EnsureVisibleIdempotent` | app/main_includes/util.js:107-117 | Applying the placement check to its own result changes nothing, even when the centred default fits no display. |
| `Geometry.ResetFitsPrimaryAtOrigin` | app/main_includes/util.js:93-99 | With the primary display at the origin and a default size that fits, the centred default lies inside the primary display with equal margins on opposite sides. |
| `Geometry.ResetIgnoresPrimaryOffset` | app/utils/util.js:97-100 | A primary display at (1920, 0) gets a 500-wide window at x = 710, which is outside its bounds. |
| `WindowPersistence.ReadRecord` | app/utils/util.js:51-57 | The read yields a record iff the state file exists and parses. In that case it yields the parsed record. A missing or corrupt file yields nothing. |
| `WindowPersistence.Restore` | app/utils/util.js:50-59 | A missing or unreadable record gives exactly the default size with no position. Otherwise the record's x and y are taken as they are, and each size field falls back to its default when absent. |
| `WindowPersistence.RestoreMergesFieldByField` | app/main_includes/util.js:47-56 | Field by field: a present field wins over the default. An absent size field keeps its default. An absent x or y stays unset. |
| `WindowPersistence.RestoreToRecordRoundTrip` | app/main_includes/util.js:55 | Restoring the record written for any state gives that state back, whatever the defaults. |
| `WindowPersistence.CurrentPosition` | app/main_includes/util.js:63-72 | `position[0]`, `position[1]`, `size[0]`, `size[1]` become x, y, width, height. The record written for it has all four fields. |
| `WindowPersistence.Open` | app/utils/util.js:132-134 | Creating a window writes nothing and attaches the listener. The initial state has a position. It is the restored candidate if some display contains that candidate, and the centred default otherwise. |
| `WindowPersistence.SaveState` | app/utils/util.js:124-130 | The state becomes the live geometry only when the window is neither minimised nor maximised; otherwise it keeps the prior state. It is always written to the state file. No other file changes. The listener is detached. |
| `WindowPersistence.DetachedIgnoresCloses` | app/main_includes/util.js:128 | Once the listener is removed, any further close events leave the session unchanged. |
| `WindowPersistence.SavedAtMostOnce` | app/utils/util.js:129-134 | Over any sequence of close events, the outcome is exactly the save of the first event. No later event writes. |
| `WindowPersistence.SaveThenOpenRoundTrip` | app/utils/util.js:124-132 | A geometry saved from a normal window that some display still contains is the next run's initial state verbatim, whatever that run's name and defaults. |
| `WindowPersistence.MinimisedCloseKeepsState` | app/main_includes/util.js:123-131 | Closing a minimised or maximised window writes the prior in-memory state. The next run, with the same displays and defaults, starts from exactly that state. |
| `WindowPersistence.StorageKeyIgnoresName` | app/main_includes/util.js:31-50 | Window creation does not depend on the name. A save adds only `window-state.json` to the directory, and that file then reads back as a record. |
| `WindowPersistence.FirstRunIsCentred` | app/main_includes/util.js:47-116 | With no readable record, the window opens at the default size, at ((W - w)/2, (H - h)/2) of the primary display. |
| `WindowPersistence.FirstRunExample` | app/electron.js:54-58 | A 500 x 500 window with no stored state on a 1920 x 1080 display opens at (710, 290). |
| `WindowPersistence.StoredStateExample` | app/utils/util.js:110-118 | A stored 800 x 600 record at (100, 100), inside a 1920 x 1080 display, is reopened verbatim. |
| `ConsoleFormat.JoinOfEmpties` | tasks/runner.js:40 | Joining `k + 1` empty array slots with `sep` gives `sep` exactly `k` times. |
| `ConsoleFormat.Repeat` | tasks/runner.js:39-41 | `repeat(str, n)` is `n` copies of `str`. Its length is `|str| * n`, and it is empty for `n = 0`. |
| `ConsoleFormat.CopiesOfChar` | tasks/runner.js:28 | The indentation `repeat(' ', n)` is `n` characters, all spaces. |
| `ConsoleFormat.Trim` | tasks/runner.js:28 | The trimmed text is a slice of the input. Everything before and after that slice is ECMAScript white space or a line terminator. The slice neither starts nor ends with such a character. |
| `ConsoleFormat.Indent` | tasks/runner.js:28 | Indentation keeps the first character. It also keeps the last character when that is not a newline. |
| `ConsoleFormat.IndentRoundTrip` | tasks/runner.js:28 | In the indented text, every newline is followed by the padding. Removing that padding gives back the original text, so nothing else changes. |
| `ConsoleFormat.Format` | tasks/runner.js:25-30 | The output starts with `color + command + END + "  "` and ends in exactly one newline. Between them, the body is the trimmed data with `|command| + 2` spaces after each newline. |
| `ConsoleFormat.FormatBodyIsTrimmed` | tasks/runner.js:28-29 | The body has no white space at either end. It is empty exactly when the data is all white space. |
| `LaunchGuard.ContainsIffOccurs` | tasks/runner.js:64 | The `/VALID/` test holds iff the pattern occurs at some index of the text. |
| `LaunchGuard.ContainsIndent` | tasks/runner.js:64 | Indenting continuation lines neither creates nor destroys an occurrence of a pattern that has no newline and does not start with a padding character. |
| `LaunchGuard.ContainsTrim` | tasks/runner.js:64 | Trimming neither creates nor destroys an occurrence of a pattern whose ends are not white space. |
| `LaunchGuard.LaunchTestSeesRawChunk` | tasks/runner.js:64 | The test on the trimmed, indented chunk passes exactly when the raw chunk contains `VALID`. |
| `LaunchGuard.LaunchesOnceOnFirstPass` | tasks/runner.js:64-69 | Over any sequence of test outcomes, electron starts at most once. It starts exactly once if any test passes, at the first passing chunk, and the open flag is set exactly then. |
| `LaunchGuard.RunFoldsTests` | tasks/runner.js:55-69 | Handling the chunks one by one, in arrival order, gives the same result as folding the one-bit guard over their test outcomes. |
| `LaunchGuard.TestsAreMarkers` | tasks/runner.js:64 | For every chunk, the launch-test outcome equals whether the raw chunk contains `VALID`. |
| `LaunchGuard.InvalidBundleLaunches` | tasks/runner.js:64 | A chunk reading `webpack: bundle is now INVALID.` passes the launch test, because the pattern is not anchored to a word. |
| `LaunchGuard.LaunchesOnceOnFirstMarker` | tasks/runner.js:55-70 | Over any sequence of stdout chunks, electron starts at most once. It starts iff some chunk contains `VALID`, and then on the first such chunk. |

## Left out

- Electron's `BrowserWindow`, `screen`, `app.getPath` and the `ready-to-show`
  handler are left out. They are host calls, so their results become inputs
  (displays, primary display, live window) and the window's options are not
  modelled.
- fs-jetpack file I/O is left out. The user-data directory is a map.
- WindowPersistence.SaveState: write failures are not modelled; every write is
  assumed to succeed. In the source, a failing write throws out of `saveState`
  before the listener is removed (app/utils/util.js:128-129). The in-memory
  state is then already updated, nothing is persisted, and the listener stays
  attached.
- WindowPersistence.SavedAtMostOnce: holds only under the same assumption that
  every write succeeds; after a throwing write the next close would save again.
- Persisted JSON that is not an object of numbers is not modelled: non-numeric
  or non-integer sizes, extra keys copied through by `Object.assign`, or a
  top-level string or array. The record has four optional numeric fields.
- The menu templates (`toolMenu`, `app/main_includes/dev.js`,
  `setApplicationMenu`) are left out. They are static data keyed by platform
  and environment and have no behaviour to state.
- `app/electron.js`, `app/main.development.js` and `app/src/main.js` are left
  out. They are environment-driven paths, devtools installation, window
  lifecycle wiring and the Vue bootstrap.
- `run`'s `exec`, the stdout/stderr listeners' `console.log` / `console.error`
  output, `exit` and `treeKill` are left out. This is child-process
  supervision and console I/O. Only the launch-once flag is kept, as a fold
  over chunks. The nested `run` of electron is recorded as a launch index.
- Chunks and command names are Dafny strings (Unicode scalar values), not
  UTF-16 code units or raw `Buffer` bytes. The padding width `|command| + 2`
  therefore counts scalar values, where JavaScript's `command.length`
  (tasks/runner.js:28, 64) counts UTF-16 code units; the two differ for
  characters outside the Basic Multilingual Plane.
