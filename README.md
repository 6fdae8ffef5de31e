# Instancebul core in Dafny

Instancebul is a Windows tray application. It binds global hotkeys listed in a JSON
configuration file. When a hotkey is pressed, it brings the configured application's
existing window to the front, or launches the application when no window exists.

This project models the decision logic of that program:

- `KeyCodes` and `HotkeyParsing`: parsing a hotkey string such as `Ctrl+Alt+T` into
  modifier bits and a virtual-key code (`HotkeyManager.TryParseHotkey`,
  `GetVirtualKeyCode`). `ParseHotkey` is the reference definition. The
  method `TryParseHotkey` is the source's loop, proved equal to it.
- `Hotkeys`: the hotkey registry (class `HotkeyManager`). It records the ids the
  system accepted and releases them all on teardown. Its invariant is that the
  recorded ids are exactly the ids bound at the system.
- `UwpApps`: the Store package lookup and its cache (class `UwpAppFinder`), keyed by
  the lower-cased search term. Only successful answers are stored.
- `Windows`: window selection (first visible main window, otherwise the first
  non-zero one) and the launch-path mini-language. `finduwp:` goes through the
  lookup, `path:` searches `PATH`, `ms-` protocols start unchecked, and any other
  path starts only when the file exists (`WindowManager`).
- `App`: the program's lifetime (class `Program`): loading the configuration,
  registering every shortcut with its index as id, answering a hotkey press,
  reloading, and releasing every binding at exit.
- `Text` holds the .NET string operations the core relies on (`Trim`,
  `ToUpperInvariant`, `ToLowerInvariant`, `Split`, the ordinal case-insensitive
  `StartsWith`/`EndsWith`).
- `Host` is the operating system and environment. Class `Os` has one method per
  Win32 or .NET call with an observable effect. Its answers are nondeterministic
  (hotkey bind result, package query output, whether `Process.Start` threw).
  Each effect is appended to `Os.trace`, so contracts state which effects happen,
  in which order, with which arguments. Running processes, existing files, the
  `PATH` variable and environment-variable expansion are fields of `Os`.

## Model

| member | source | states |
|---|---|---|
| Text.TrimIdempotent | UwpAppFinder.cs:58-66 | trimming an already trimmed string changes nothing, so the stored lookup answer is its own trim |
| Text.BlankIffTrimEmpty | UwpAppFinder.cs:61 | a string is null-or-whitespace exactly when its trim is empty |
| Text.TrimUpper | HotkeyManager.cs:61-65 | trimming and upper-casing commute |
| Text.SplitUpper | HotkeyManager.cs:61-65 | splitting on `+` and upper-casing commute, piece by piece |
| Text.SplitAtSeparator | HotkeyManager.cs:61 | the pieces of `a + "+" + b` are the pieces of `a` followed by those of `b` |
| Text.SplitPlain | HotkeyManager.cs:61 | a string without the separator is one piece |
| Text.TrimLeadingBlank | HotkeyManager.cs:61 | leading whitespace does not survive trimming |
| Text.TrimTrailingBlank | HotkeyManager.cs:61 | trailing whitespace does not survive trimming |
| Text.SameUpperSameLower | UwpAppFinder.cs:13 | strings equal up to case have the same lower-case form |
| Text.LowerAbsorbs | UwpAppFinder.cs:13 | lower-casing forgets any earlier case mapping |
| KeyCodes.TryParseInt32 | HotkeyManager.cs:118 | `int.TryParse` only succeeds with a value in the 32-bit signed range |
| KeyCodes.DecimalRoundTrip | HotkeyManager.cs:118 | reading back the decimal spelling of `n` gives `n` |
| KeyCodes.ParseDecimal | HotkeyManager.cs:118 | a decimal spelling of any value up to 2^31-1 parses as that value |
| KeyCodes.VirtualKeyCode | HotkeyManager.cs:97-195 | every key code is at most 0xDE |
| KeyCodes.FunctionKeyNumber | HotkeyManager.cs:117-121 | a function-key number is only found for a token starting with `F` whose rest `int.TryParse` reads as 1..24 |
| KeyCodes.NamedKeyCode | HotkeyManager.cs:124-194 | a named key is 0 (unlisted) or a code in 0x08..0xDE that is neither a letter, a digit nor a function key, so the table never shadows them |
| KeyCodes.SingleCharacterKeys | HotkeyManager.cs:100-115 | a single A-Z or 0-9 is its own ASCII code, in 0x30..0x5A |
| KeyCodes.FunctionKeys | HotkeyManager.cs:117-121 | `F1`..`F24` are 0x70..0x87 in order |
| KeyCodes.FunctionKeySpellings | HotkeyManager.cs:118 | `F09` and `F 9` are F9 (0x78), as `int.TryParse` accepts them |
| KeyCodes.FunctionKeyEnds | HotkeyManager.cs:100-121 | a bare `F` is the letter F (0x46); `F24` is 0x87 |
| KeyCodes.FunctionKeyZero | HotkeyManager.cs:118 | `F0` is not a key |
| KeyCodes.FunctionKeyTooLarge | HotkeyManager.cs:118 | `F25` is not a key |
| KeyCodes.EnterAlias | HotkeyManager.cs:127-128 | ENTER and RETURN are both 0x0D |
| KeyCodes.EscapeAlias | HotkeyManager.cs:130-131 | ESCAPE and ESC are both 0x1B |
| KeyCodes.DeleteAlias | HotkeyManager.cs:133-134 | DELETE and DEL are both 0x2E |
| KeyCodes.InsertAlias | HotkeyManager.cs:135-136 | INSERT and INS are both 0x2D |
| KeyCodes.PageUpAlias | HotkeyManager.cs:139-140 | PAGEUP and PGUP are both 0x21 |
| KeyCodes.PageDownAlias | HotkeyManager.cs:141-142 | PAGEDOWN and PGDN are both 0x22 |
| KeyCodes.PrintScreenAlias | HotkeyManager.cs:147-148 | PRINTSCREEN and PRTSC are both 0x2C |
| KeyCodes.SemicolonAlias | HotkeyManager.cs:170-171 | `;` and SEMICOLON are both 0xBA |
| KeyCodes.EqualsAlias | HotkeyManager.cs:172-173 | `=` and EQUALS are both 0xBB |
| KeyCodes.CommaAlias | HotkeyManager.cs:174-175 | `,` and COMMA are both 0xBC |
| KeyCodes.MinusAlias | HotkeyManager.cs:176-177 | `-` and MINUS are both 0xBD |
| KeyCodes.PeriodAlias | HotkeyManager.cs:178-179 | `.` and PERIOD are both 0xBE |
| KeyCodes.SlashAlias | HotkeyManager.cs:180-181 | `/` and SLASH are both 0xBF |
| KeyCodes.BacktickAlias | HotkeyManager.cs:182-183 | the backtick and BACKTICK are both 0xC0 |
| KeyCodes.TildeAlias | HotkeyManager.cs:182-184 | the backtick and TILDE are both 0xC0 |
| KeyCodes.OpenBracketAlias | HotkeyManager.cs:185-186 | `[` and OPENBRACKET are both 0xDB |
| KeyCodes.BackslashAlias | HotkeyManager.cs:187-188 | the backslash and BACKSLASH are both 0xDC |
| KeyCodes.CloseBracketAlias | HotkeyManager.cs:189-190 | `]` and CLOSEBRACKET are both 0xDD |
| KeyCodes.QuoteAlias | HotkeyManager.cs:191-192 | `'` and QUOTE are both 0xDE |
| KeyCodes.TableLookup | HotkeyManager.cs:124-194 | a token that is neither a single letter or digit nor starts with `F` gets its table entry, and an unlisted token gets 0 |
| KeyCodes.LowerCaseAndEmptyRejected | HotkeyManager.cs:97-195 | lower-case letters, lower-case names and the empty token are not keys |
| HotkeyParsing.ModifierBit | HotkeyManager.cs:67-82 | a segment names no modifier or exactly one of ALT, CONTROL, SHIFT, WIN |
| HotkeyParsing.Classify | HotkeyManager.cs:67-91 | a segment is a modifier exactly when it names one; otherwise it is a key with its virtual-key code |
| HotkeyParsing.Step | HotkeyManager.cs:67-91 | one segment rejects exactly on an unknown key (or once rejected); a modifier keeps the key, a key keeps the bits and becomes the key |
| HotkeyParsing.ScanFrom | HotkeyManager.cs:63-92 | a scan ends rejected exactly when it started rejected or meets an unknown key |
| HotkeyParsing.Finish | HotkeyManager.cs:94 | the result exists iff the scan was not rejected and both the bits and the key are non-zero, and then it carries them |
| HotkeyParsing.ParseSegments | HotkeyManager.cs:56-95 | a parse of the segments succeeds only without an unknown key, and then with non-zero bits and a non-zero key |
| HotkeyParsing.ParseHotkey | HotkeyManager.cs:56-95 | a parse of a hotkey string succeeds only when no segment is an unknown key, and then with non-zero bits and a non-zero key |
| HotkeyParsing.StepClassify | HotkeyManager.cs:67-91 | one loop iteration ORs in a modifier bit, or stores a non-zero key, or rejects a zero key |
| HotkeyParsing.TryParseHotkey | HotkeyManager.cs:56-95 | the loop succeeds exactly when the reference parse does, and then returns the same bits and key |
| HotkeyParsing.ScanParts | HotkeyManager.cs:63-94 | the loop over the trimmed parts computes the fold `ParseSegments` of the upper-cased parts, with its early return on an unknown key |
| HotkeyParsing.ScanFromAppend | HotkeyManager.cs:63-92 | scanning `a + b` is scanning `b` from where `a` left off |
| HotkeyParsing.RejectedPrefix | HotkeyManager.cs:86-89 | once a prefix is rejected, the whole scan is rejected |
| HotkeyParsing.ScanFromRejected | HotkeyManager.cs:86-89 | nothing after an unknown key matters |
| HotkeyParsing.ScanShape | HotkeyManager.cs:63-94 | the scan rejects exactly when some key is unknown; otherwise the bits are non-zero iff a modifier occurs and stay within the four modifier bits, and the key is non-zero iff a key occurs |
| HotkeyParsing.ParseHotkeySucceeds | HotkeyManager.cs:56-95 | a parse succeeds iff no key is unknown, a modifier occurs and a key occurs; a success has non-zero bits within 0xF and a non-zero key |
| HotkeyParsing.UnknownKeyRejects | HotkeyManager.cs:83-89 | one segment that is neither a modifier nor a key makes the whole string fail |
| HotkeyParsing.ModifiersKeepKey | HotkeyManager.cs:69-82 | modifier segments never change the key |
| HotkeyParsing.LastKeyWins | HotkeyManager.cs:83-90 | with several keys, the last one is bound |
| HotkeyParsing.ScanPairThen | HotkeyManager.cs:63-92 | a scan through two adjacent tokens is the two steps in order |
| HotkeyParsing.SwapNextToModifier | HotkeyManager.cs:69-82 | two adjacent tokens of which one is a modifier can be swapped |
| HotkeyParsing.DuplicateModifier | HotkeyManager.cs:69-82 | repeating a modifier changes nothing |
| HotkeyParsing.SwapSegments | HotkeyManager.cs:63-91 | swapping adjacent segments next to a modifier does not change the parse of the segments |
| HotkeyParsing.SegmentsOfJoin | HotkeyManager.cs:61-65 | the segments of `a + "+" + b` are those of `a` then those of `b` |
| HotkeyParsing.SegmentsOfPlain | HotkeyManager.cs:61-65 | a string without `+` is one segment: its trimmed, upper-cased self |
| HotkeyParsing.ModifierOrderIrrelevant | HotkeyManager.cs:61-94 | swapping the segments at any adjacent positions `i` and `i+1` of a hotkey string, one of them a modifier, does not change the parse; this covers the first and the last pair alike |
| HotkeyParsing.DuplicateModifierSegment | HotkeyManager.cs:69-82 | a modifier segment written twice in a row parses as if written once, wherever it stands |
| HotkeyParsing.RepeatedModifierIrrelevant | HotkeyManager.cs:61-82 | a hotkey string whose segments repeat a modifier at any adjacent position parses as the string with one copy removed |
| HotkeyParsing.SegmentsOfUpper | HotkeyManager.cs:61-65 | upper-casing the whole string first gives the same segments |
| HotkeyParsing.CaseInsensitive | HotkeyManager.cs:65 | strings equal once upper-cased parse alike |
| HotkeyParsing.TrimAllPaddedLast | HotkeyManager.cs:61 | whitespace after the last piece is trimmed away |
| HotkeyParsing.TrimAllPaddedFirst | HotkeyManager.cs:61 | whitespace before the first piece is trimmed away |
| HotkeyParsing.PaddingIgnored | HotkeyManager.cs:61 | whitespace on either side of a `+` does not change the parse |
| HotkeyParsing.Word | HotkeyManager.cs:61-65 | a word is one segment, upper-cased |
| HotkeyParsing.TwoWords | HotkeyManager.cs:61-65 | two words joined by `+` are two segments |
| HotkeyParsing.ThreeWords | HotkeyManager.cs:61-65 | three words joined by `+` are three segments |
| HotkeyParsing.ParseTwo | HotkeyManager.cs:61-94 | two words joined by `+` parse as two steps of the scan |
| HotkeyParsing.ControlAltT | HotkeyManager.cs:56-95 | `Ctrl+Alt+T` is CONTROL or ALT with key 0x54 |
| HotkeyParsing.AltControlT | HotkeyManager.cs:69-82 | `Alt+Ctrl+T` parses as `Ctrl+Alt+T` |
| HotkeyParsing.AltT | HotkeyManager.cs:56-95 | `Alt+T` is ALT with key 0x54 |
| HotkeyParsing.KeyThenAlt | HotkeyManager.cs:61-94 | `T+Alt` parses as `Alt+T`: the key may stand before its modifier, as the last pair |
| HotkeyParsing.ControlQT | HotkeyManager.cs:83-90 | `Ctrl+Q+T` binds T |
| HotkeyParsing.AltF9 | HotkeyManager.cs:115-121 | `Alt+F9` is ALT with key 0x78 |
| HotkeyParsing.ShiftHome | HotkeyManager.cs:137 | `Shift+Home` is SHIFT with key 0x24 |
| HotkeyParsing.KeyWithoutModifier | HotkeyManager.cs:94 | `F9` without a modifier is refused |
| HotkeyParsing.EmptyKey | HotkeyManager.cs:83-89 | `Ctrl+` (an empty key segment) is refused |
| Hotkeys.BindFlags | HotkeyManager.cs:36 | the flags always include NOREPEAT and keep the parsed modifier bits |
| Hotkeys.BindEvents | HotkeyManager.cs:28-45 | no bind when the string does not parse; otherwise one bind of the parsed key under the id, with NOREPEAT and the parsed modifier bits |
| Hotkeys.UnbindEvents | HotkeyManager.cs:47-54 | one release per recorded id, in order |
| Hotkeys.IdsSnoc | HotkeyManager.cs:40 | appending an id to the list adds exactly that id to the set of recorded ids |
| Hotkeys.HotkeyManager.constructor | HotkeyManager.cs:23-26 | a new manager records no ids, for a window with nothing bound |
| Hotkeys.HotkeyManager.RegisterHotkey | HotkeyManager.cs:28-45 | success implies the string parsed; the system sees exactly `BindEvents`; the id is recorded iff the system accepted; recorded ids stay equal to bound ids |
| Hotkeys.HotkeyManager.UnregisterAll | HotkeyManager.cs:47-54 | every recorded id is released in order, the list is empty and nothing stays bound |
| UwpApps.CacheKey | UwpAppFinder.cs:13 | the key is lower case and as long as the term |
| UwpApps.QueryResult | UwpAppFinder.cs:55-76 | a query yields an answer iff the process exited with code 0 and non-blank output; the answer is the non-empty trimmed output |
| UwpApps.AfterQuery | UwpAppFinder.cs:55-71 | the answer is `QueryResult` of the outcome; every other key keeps its presence and value; the term's key is present afterwards iff it was before or the query answered, and then it maps to the answer; a failed query changes nothing |
| UwpApps.QueryKeepsCacheValid | UwpAppFinder.cs:66-71 | storing an answer keeps every key lower case and every value non-empty and trimmed |
| UwpApps.SuccessIsRemembered | UwpAppFinder.cs:13-17 | after a successful query, the same term in any casing finds the stored answer |
| UwpApps.FailureIsRetried | UwpAppFinder.cs:56-76 | a failed query leaves the cache unchanged, so the term is queried again next time |
| UwpApps.LookupAnswer | UwpAppFinder.cs:13-71 | after a miss, the cached entry for the term is the query's answer |
| UwpApps.UwpAppFinder.constructor | UwpAppFinder.cs:8 | the cache starts empty |
| UwpApps.UwpAppFinder.FindUwpApp | UwpAppFinder.cs:10-77 | a hit returns the cached value with no query and no change; a miss runs one query, stores only a successful answer, and returns it; the result always equals the cache entry afterwards |
| UwpApps.UwpAppFinder.ClearCache | UwpAppFinder.cs:79-82 | the cache is empty, so every term is queried again |
| Windows.FirstCandidate | WindowManager.cs:51-73 | the first process in enumeration order whose window the pass accepts, or none when no window is accepted |
| Windows.ChooseWindow | WindowManager.cs:41-78 | a chosen window is the main window of some listed process, which is visible unless no process has a visible non-zero window |
| Windows.FirstVisibleWins | WindowManager.cs:51-60 | the first visible non-zero window is chosen, whatever follows it |
| Windows.FirstNonZeroOtherwise | WindowManager.cs:62-73 | with no visible window, the first non-zero one is chosen |
| Windows.NothingToActivate | WindowManager.cs:41-78 | nothing is chosen iff every handle is zero, including when no process runs |
| Windows.TryActivateWindow | WindowManager.cs:38-83 | returns true iff a window was chosen, and then activates exactly that window once; otherwise nothing happens |
| Windows.WithExe | WindowManager.cs:143-146 | the name ends in `.exe` in any casing, starts with the given name, and is unchanged when it already ended in `.exe` |
| Windows.ExeName | WindowManager.cs:140-146 | the name a `path:` path asks for ends in `.exe` |
| Windows.Combine | WindowManager.cs:157 | the combined path ends with the file name |
| Windows.SearchPath | WindowManager.cs:149-164 | a hit exists iff some non-blank entry holds the file, and a hit is an existing file |
| Windows.SearchPathFirst | WindowManager.cs:153-162 | the first entry that holds the file wins |
| Windows.ProtocolIsNotPath | WindowManager.cs:138-180 | no path is both a `path:` and an `ms-` path |
| Windows.ProtocolUnchecked | WindowManager.cs:180-188 | an `ms-` path is started as given, with no existence check |
| Windows.PlainPathNeedsFile | WindowManager.cs:191-206 | any other path is started iff the file exists, otherwise refused with the path |
| Windows.StartedTargetsExist | WindowManager.cs:180-206 | every started target is an `ms-` protocol or an existing file |
| Windows.CombineKeepsSuffix | WindowManager.cs:157 | combining keeps the `.exe` ending |
| Windows.ResolveFound | WindowManager.cs:149-177 | a `path:` path whose search hits starts the hit |
| Windows.PathSearchStartsFirstHit | WindowManager.cs:149-164 | a `path:` path starts the combined path of the first entry holding the file, which ends in `.exe` |
| Windows.PathSearchMiss | WindowManager.cs:166-176 | a `path:` path with no hit, or with no `PATH`, is refused naming the `.exe` |
| Windows.PackagePathFallsThrough | WindowManager.cs:118-135 | an unresolved `finduwp:` path is refused; a resolved one goes through the same rules as any other path |
| Windows.LaunchesAppend | WindowManager.cs:113-217 | the starts in two event lists are those of each |
| Windows.AtMostOneLaunch | WindowManager.cs:113-217 | one launch starts at most one process, and only an `ms-` protocol or an existing file |
| Windows.PlanLaunches | WindowManager.cs:180-216 | carrying out a decision starts exactly its target, or nothing when it is refused |
| Windows.Direct | WindowManager.cs:179-206 | an `ms-` path or an existing file is started as given; anything else is refused naming the path, which does not exist |
| Windows.Resolve | WindowManager.cs:137-206 | a started target is an `ms-` protocol or an existing file; a path without `path:` is decided directly; a refusal is a `PATH` miss or a missing file |
| Windows.Plan | WindowManager.cs:118-206 | a started target is an `ms-` protocol or an existing file; a refusal for a missing package happens only for a `finduwp:` path whose lookup found nothing |
| Windows.SearchPathVariable | WindowManager.cs:149-164 | the loop over `PATH` entries computes `SearchPath`, and nothing without `PATH` |
| Windows.StartTarget | WindowManager.cs:202-216 | starts the target; a start that throws is followed by one warning |
| Windows.ShowRefusal | WindowManager.cs:167-199 | a refusal is one warning and no start |
| Windows.LaunchResolved | WindowManager.cs:137-216 | the `path:`, `ms-` and existence rules are carried out as `Resolve` decides |
| Windows.LaunchApplication | WindowManager.cs:113-217 | the whole launch is the package lookup (for `finduwp:`) followed by the decision `Plan` makes on its answer |
| App.LoadWarning | Program.cs:58-148 | no warning iff the file was read and holds a non-empty list |
| App.LoadedListIsUsable | Program.cs:108-120 | a successful load leaves a non-empty list; a failed read keeps the old list; an empty or null list leaves an empty list |
| App.LoadedShortcuts | Program.cs:108-120 | a file that was not read keeps the previous list; a read file always yields a list, which is empty exactly when the load warns that no shortcuts are defined |
| App.Attempt | Program.cs:156-165 | registering one shortcut binds once when its hotkey parses, and warns once when registration fails, the warning last |
| App.Registration | Program.cs:152-166 | the per-index fold of `Attempt`: at most two events per shortcut, each a bind of an index in range or a warning; what it binds and warns is stated by `App.EveryShortcutAttempted` and `App.OneWarningPerFailure` |
| App.Accepted | Program.cs:152-157 | an index is among the recorded ids iff it is in range and its registration succeeded |
| App.AcceptedIds | Program.cs:152-166 | the recorded ids are exactly the indices whose registration succeeded, in increasing order |
| App.AcceptedSnoc | Program.cs:154-157 | one more attempt records its index iff it succeeded |
| App.AttemptBinds | Program.cs:156-165 | one attempt binds its index iff the hotkey parsed, and warns iff it failed |
| App.EveryShortcutAttempted | Program.cs:152-166 | the ids of the bind attempts in the trace (`BindIds`) are every index whose hotkey parses, in order: one failure does not stop later indices |
| App.OneWarningPerFailure | Program.cs:156-165 | the number of warnings is the number of shortcuts not registered |
| App.Program.constructor | Program.cs:8-10 | no list is loaded and no manager exists yet |
| App.Program.LoadConfig | Program.cs:58-148 | true iff a non-empty list was loaded; the list is replaced only when the file was read; a failure shows its one warning |
| App.Program.RegisterShortcut | Program.cs:155-165 | registers index `id`, warns when that fails, and records the id iff the system accepted |
| App.Program.RegisterAll | Program.cs:152-166 | every shortcut is attempted in order with its index as id; the trace is `Registration` and the recorded ids are the accepted indices |
| App.Program.RegisterHotkeys | Program.cs:150-167 | nothing without a list or a manager; otherwise as `RegisterAll` |
| App.Program.OnHotkeyPressed | Program.cs:169-184 | nothing for an id outside the list; otherwise the chosen window is activated, and only when there is none the expanded path is launched |
| App.Program.Reload | Program.cs:222-230 | every binding is released first; the new list is registered only when loading succeeds, otherwise a warning follows and nothing is bound |
| App.Program.Run | Program.cs:12-56 | a failed load warns and creates no manager; in every case nothing stays bound at the end |
| Host.Os.RegisterHotKey | HotkeyManager.cs:7-8 | one bind is recorded with its answer, and the id is bound iff accepted |
| Host.Os.UnregisterHotKey | HotkeyManager.cs:10-11 | one release is recorded and the id is no longer bound |
| Host.Os.ActivateWindow | WindowManager.cs:85-111 | one activation of the window is recorded |
| Host.Os.RunPackageQuery | UwpAppFinder.cs:19-59 | one query is recorded with its outcome |
| Host.Os.StartProcess | WindowManager.cs:202-206 | one start is recorded with whether it threw |
| Host.Os.ShowWarning | WindowManager.cs:125-130 | one warning is recorded |

## Left out

- Win32 calls (`RegisterHotKey`, `UnregisterHotKey`, the focus sequence in `ActivateWindow`) are methods of `Host.Os`. Their answers are nondeterministic. `ActivateWindow` is one `Activate` event, because restoring, thread attachment and focus are system behaviour.
- The PowerShell package query (its script, manifest parsing, encoding) is `Os.RunPackageQuery`. It nondeterministically returns no process, a fault, or an exit code with output.
- `Process.GetProcessesByName`, `File.Exists`, `Environment.GetEnvironmentVariable("PATH")` and `Environment.ExpandEnvironmentVariables` are fields of `Os`, fixed for one `Os`. Each process's `MainWindowHandle` and the window's `IsWindowVisible` are the `mainWindow` and `visible` fields of `Host.ProcessWindow` in that process snapshot. Processes that start or exit while the program runs are not modelled, and neither is a handle or a visibility that changes between the visible pass and the non-zero pass of `WindowManager.TryActivateWindow`.
- JSON reading and deserialisation are the `App.ConfigFile` parameter (missing, malformed, unreadable, or parsed). The default file written on first run and the message texts are not modelled.
- `null` entries or `null` string properties inside a deserialised list are not modelled: `Shortcut` fields are plain strings.
- The tray icon, its menu (open config, start on boot and its registry key, exit), balloon tips, the single-instance mutex, `MessageWindow`/`WndProc` and `Application.Run` are not modelled. `App.Program.Run` replaces `Main`, with the message loop as a list of `UiEvent`s (hotkey presses and reloads).
- Case mapping (`ToUpperInvariant`, `ToLowerInvariant`, `OrdinalIgnoreCase`) covers ASCII letters only. Non-ASCII letters keep their case.
- KeyCodes.TryParseInt32: models `int.TryParse` with the invariant culture's leading and trailing whitespace, an optional sign and 32-bit overflow. .NET also accepts trailing `\0` characters, which the model does not: `F9` followed by a `\0` binds F9 (0x78) in the program but gets code 0 in the model. The culture's other number formats are not modelled.
- `Path.Combine` never fails on the strings it receives here (on .NET Core and later it throws only for `null`; invalid path characters are accepted), and `Windows.Combine` is total to match. It covers the forms `PATH` entries take: an empty part, a rooted second part, a trailing or leading separator, otherwise a `\` between.
- Warnings are distinguished by kind and argument (`Host.Warning`), not by their message text, caption or icon.
- App.Program.RegisterAll: does not restate, over the whole list, that only parsed hotkeys are accepted. That fact is stated per shortcut by `App.Program.RegisterShortcut` and `Hotkeys.HotkeyManager.RegisterHotkey`.
- App.Program.RegisterHotkeys: the same as `App.Program.RegisterAll`.
- HotkeyParsing.TryParseHotkey: the `foreach` loop is the separate method `HotkeyParsing.ScanParts`, which takes the trimmed parts; `TryParseHotkey` only splits.
- App.Program.Run: states only what holds after any session (nothing stays bound, and the early stop on a failed load), not the trace of each event; the trace of each event is stated by `App.Program.OnHotkeyPressed` and `App.Program.Reload`.
- `UwpAppFinder.ClearCache` is modelled, although no code in the repository calls it.
