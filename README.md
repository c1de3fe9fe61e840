# antigravity-cleaner, modelled in Dafny

antigravity-cleaner (`agc`) finds disk space held by developer tools: Antigravity IDE data,
Flutter build directories and the pub cache, Xcode, Android and VS Code caches. It reports
them by category, lets the user pick some in a terminal list, and removes the picked ones.
This project models the three pieces of that pipeline and proves what each one promises.

- `host.dfy` (`Host`): the environment as values. The filesystem is a tree of `Dir`,
  `File(name, size)` and `Unreadable` entries. A path is a sequence of segments. The
  platform, the home directory and `APPDATA`/`LOCALAPPDATA` are parameters. `Base`, `Parent`
  and `Ext` stand for `filepath.Base`, `filepath.Dir` and `filepath.Ext`. `Exists` stands for
  the scanner's `exists` helper (`os.Stat` succeeds, internal/scanner/scanner.go:42-46): the
  path names an entry. `Reaches` says that a path leads to a given entry through children of
  the matching names.
- `scanner.dfy` (`Scanner`): discovery (`internal/scanner/scanner.go`).
  - `getDirSize` is a recursive walk method that sums file sizes.
  - The rule tables are pure data. Each `Scan*` is a loop over its table or walk, proved
    equal to a specification function.
  - Lemmas state when an item is reported, what it carries and which thresholds apply.
  - The Flutter walk prunes hidden directories and `node_modules` before any other test.
- `ui.dfy` (`Ui`): the selection workflow (`internal/ui/ui.go`).
  - An in-place insertion sort on an `array`, largest first.
  - The `Model` class, whose `Update` changes `cursor`, `selected`, `quit` and `confirm` in
    place and is proved equal to the transition function `Step`.
  - The event loop over a script of key messages.
  - The selection filter, and the totals of `View`, `DisplayDryRun` and `DisplayScanResults`.
- `cleaner.dfy` (`Cleaner`): the removal executor (`internal/cleaner/cleaner.go`). The
  outcome of each removal or command is an oracle: one boolean per attempt.
- `scenarios.dfy` (`Scenarios`): two end-to-end runs on concrete inputs.
  - A Flutter tree holds two 150 MiB `build` directories, only one beside a `pubspec.yaml`.
    Exactly that one is reported.
  - Three items of 500, 200 and 10 MiB: select-safe and enter pick 510 MiB. Removing them
    with the small one failing frees 500 MiB.

Sizes are `nat`. Thresholds are strict (`>`): 0 for Antigravity; 100 MiB for Xcode,
Android, the pub cache and Flutter build directories; 50 MiB for VS Code and `.dart_tool`;
1 GiB for AVD images.

## Model

| member | source | states |
|---|---|---|
| Host.Parent | internal/scanner/scanner.go:170 | a non-empty path is its parent joined with its base name |
| Host.LookupName | internal/scanner/scanner.go:157-163 | the entry a walk reaches at a path has that path's last segment as its name |
| Host.LookupJoin | internal/scanner/scanner.go:171 | looking up a joined path is looking up the second part from the entry the first part names |
| Host.LookupReaches | internal/scanner/scanner.go:42-46 | the entry `Lookup` finds, and that `exists` and the walk see, is one the path reaches through children of the matching names |
| Host.ReachesJoin | internal/scanner/scanner.go:157-168 | reaching an entry and then a descendant of it reaches that descendant by the joined path |
| Host.ExtMatchesSuffix | internal/scanner/scanner.go:297 | for an extension of the form dot-then-no-dot, `Ext(name)` equals it exactly when the name ends with it |
| Host.AvdExtension | internal/scanner/scanner.go:297 | `Ext(name) == ".avd"` exactly when the name ends in ".avd" |
| Host.Pick | internal/ui/ui.go:207 | a map's range hands out some key of the map, in no promised order |
| Scanner.WalkSize | internal/scanner/scanner.go:28-40 | the walk's accumulated size is the sum of the sizes of the files below the entry |
| Scanner.GetDirSize | internal/scanner/scanner.go:28-40 | getDirSize is that sum for the entry at the path, and 0 when the path cannot be stat'ed |
| Scanner.SizeOfAllAppend | internal/scanner/scanner.go:30-38 | the size of a run of sibling entries adds up over any split of the run |
| Scanner.SkipsUnreadable | internal/scanner/scanner.go:31-33 | an entry whose callback gets an error adds 0, and the entries after it are still counted |
| Scanner.ChildSizeBound | internal/scanner/scanner.go:28-40 | no child's size exceeds its directory's size |
| Scanner.ScanRules | internal/scanner/scanner.go:129-142 | the table loop yields, in table order, one item per row whose path exists with a size above the threshold |
| Scanner.RuleItemsAppend | internal/scanner/scanner.go:129-142 | the items of two tables joined are the items of each, in order |
| Scanner.RuleItemsSound | internal/scanner/scanner.go:129-142 | every item comes from a row whose path exists with size above the threshold, and carries that row's path, category, description and level |
| Scanner.RuleItemsComplete | internal/scanner/scanner.go:129-142 | every row whose path exists with size above the threshold yields its item |
| Scanner.RuleReportedIff | internal/scanner/scanner.go:130-132 | a row's item is reported if and only if its path exists and its size is strictly above the threshold |
| Scanner.RuleItemsAboveThreshold | internal/scanner/scanner.go:130-132 | every table item is strictly above the threshold and so has a positive size |
| Scanner.RuleItemsCategory | internal/scanner/scanner.go:133-139 | an item's category is the category of the table that produced it |
| Scanner.SubdirRulesAt | internal/scanner/scanner.go:344-348 | an installation's candidates are its four cache directories, in order |
| Scanner.CrossRulesAt | internal/scanner/scanner.go:346-358 | the VS Code candidates are installations × cache directories: candidate k is installation k/4 with directory k%4, described by base name + " " + directory |
| Scanner.ScanAntigravity | internal/scanner/scanner.go:60-145 | ScanAntigravity is the table loop over the platform's Antigravity table with threshold 0 |
| Scanner.AntigravityItemsProps | internal/scanner/scanner.go:72-142 | Antigravity items are non-empty existing table locations with their row's labels; an unsupported platform yields none |
| Scanner.AntigravityRulesCategory | internal/scanner/scanner.go:72-127 | every row of every platform's Antigravity table is labelled "Antigravity", and an unsupported platform has no table |
| Scanner.ScanXcode | internal/scanner/scanner.go:222-259 | nothing off darwin; otherwise the Xcode table loop with the 100 MiB threshold |
| Scanner.XcodeItemsProps | internal/scanner/scanner.go:225-253 | Xcode items exist only on darwin, are above 100 MiB, and carry category "Xcode" and their row's labels |
| Scanner.ScanAvd | internal/scanner/scanner.go:291-312 | the AVD loop over the entries of ~/.android/avd yields, in listing order, each `.avd` directory above 1 GiB; nothing when the directory is missing or cannot be listed |
| Scanner.AvdEntryItemsProps | internal/scanner/scanner.go:296-308 | every AVD item is the path of a directory entry of the listing whose extension is ".avd"; it sits directly in the AVD directory, is above 1 GiB, is tagged warning, and is described "AVD: " + its name |
| Scanner.AvdEntryItemsComplete | internal/scanner/scanner.go:296-308 | every directory entry of the listing with extension ".avd" and more than 1 GiB inside is reported, with its size, "Android", "AVD: " + its name and warning |
| Scanner.ScanAndroid | internal/scanner/scanner.go:262-315 | the Android table items (100 MiB threshold) followed by the AVD items |
| Scanner.ScanVSCode | internal/scanner/scanner.go:318-365 | the nested installation × cache-directory loop, with the 50 MiB threshold |
| Scanner.VSCodeItemsProps | internal/scanner/scanner.go:324-358 | VS Code items are safe, above 50 MiB, and each is a cache directory of a listed installation described by its base name and directory; an unsupported platform yields none |
| Scanner.VSCodeRuleShape | internal/scanner/scanner.go:346-358 | every VS Code candidate is one cache directory of one listed installation, described by the installation's base name and the directory |
| Scanner.VisitDir | internal/scanner/scanner.go:163-198 | the walk callback skips exactly hidden and node_modules directories, and otherwise reports the build and .dart_tool items of the directory |
| Scanner.ReportDartTool | internal/scanner/scanner.go:186-198 | the .dart_tool test reports the directory when it is above 50 MiB |
| Scanner.WalkFlutter | internal/scanner/scanner.go:157-201 | the recursive walk yields exactly the as-written walk's items, in walk order |
| Scanner.WalkChildren | internal/scanner/scanner.go:157-201 | walking a directory's children in order yields the concatenation of their walks |
| Scanner.FlutterWalkSound | internal/scanner/scanner.go:163-181 | every walk item's path leads below the walked entry to a directory named `build` (`info.IsDir()`), through no pruned directory; it sits beside a pubspec.yaml, is above 100 MiB, safe, and described "Build directory: " + its parent's name |
| Scanner.FlutterWalkAllSound | internal/scanner/scanner.go:163-181 | the same for the walks of a run of sibling entries: each item leads through one of the siblings to a `build` directory |
| Scanner.WalkAllContains | internal/scanner/scanner.go:157-201 | whatever the walk of one entry of a listing reports, the walk of the listing reports |
| Scanner.FlutterWalkComplete | internal/scanner/scanner.go:163-181 | every `build` directory reached through directories none of which is pruned, beside a pubspec.yaml and above 100 MiB, is reported with its size, "Flutter", safe and "Build directory: " + its parent's name |
| Scanner.FlutterBase | internal/scanner/scanner.go:152-154 | the walk's base is never the empty path; an empty basePath means home/Documents |
| Scanner.ScanFlutter | internal/scanner/scanner.go:148-219 | the walk of the base (nothing when it cannot be stat'ed), then the pub cache above 100 MiB |
| Scanner.FlutterItemsProps | internal/scanner/scanner.go:163-216 | every Flutter item is above 100 MiB, is a build directory as above whose path reaches a directory named `build` in the tree, or is the pub cache, and is never a ".dart_tool: " item |
| Scanner.WalkedBuildDir | internal/scanner/scanner.go:157-181 | an item of the walk from the base names, from the root of the tree, a directory named `build` |
| Scanner.FlutterItemsComplete | internal/scanner/scanner.go:148-181 | every qualifying build directory below an unpruned base, reached through no pruned directory, is among the Flutter items |
| Scanner.DartToolReportedOnlyWhenFixed | internal/scanner/scanner.go:163-198 | a .dart_tool directory above 50 MiB is reported by the corrected walk and not by the walk as written |
| Scanner.FixOnlyAddsDartTool | internal/scanner/scanner.go:163-198 | with the .dart_tool reports removed, the corrected walk is the walk as written |
| Scanner.FixOnlyAddsDartToolAll | internal/scanner/scanner.go:163-198 | the same for a run of sibling entries |
| Scanner.UnprunedIsNotDartTool | internal/scanner/scanner.go:163-186 | a directory the walk enters can never be named .dart_tool, so the .dart_tool test finds nothing there |
| Scanner.ScanSimulators | internal/scanner/scanner.go:368-371 | always empty |
| Scanner.ScanAll | internal/scanner/scanner.go:49-57 | exactly Antigravity ++ Flutter(default base) ++ Xcode ++ Android ++ VS Code |
| Scanner.RuleItemsMeasured | internal/scanner/scanner.go:129-142 | every table item exists, has a positive size, and its size is its path's size |
| Scanner.AllItemsMeasured | internal/scanner/scanner.go:49-57 | every item of the full scan exists, has a positive size, and carries its path's size |
| Scanner.FlutterItemsMeasured | internal/scanner/scanner.go:148-219 | for any base path, every Flutter item exists, has a positive size, and carries its path's size |
| Scanner.AvdItemsMeasured | internal/scanner/scanner.go:291-312 | every AVD item exists, has a positive size, and carries its path's size |
| Scanner.SumSizesAppend | internal/ui/ui.go:54-57 | a running total of sizes adds up over any split of the list |
| Scanner.SumSizesPermutation | internal/ui/ui.go:45-57 | reordering the items (the sort) does not change their total |
| Ui.SortBySizeDesc | internal/ui/ui.go:106-109 | the slice is sorted in place, largest first, and is a permutation of what it was |
| Ui.InsertAt | internal/ui/ui.go:107-109 | one insertion step extends the sorted prefix by one element and keeps the contents |
| Ui.Model.constructor | internal/ui/ui.go:160-165 | the initial model: the items, cursor 0, nothing selected, neither quit nor confirmed |
| Ui.Model.Update | internal/ui/ui.go:171-220 | Update changes the fields in place exactly as `Step` says, and returns the quit command exactly when `Step` does; the items never change |
| Ui.Model.ToggleAll | internal/ui/ui.go:188-199 | the 'a' loops: every flag of the list becomes the negation of "all were selected"; other keys keep their flags |
| Ui.Model.SelectSafe | internal/ui/ui.go:200-204 | the 's' loop: every flag of the list becomes whether that item is safe |
| Ui.Model.AnySelected | internal/ui/ui.go:205-212 | the search over the map finds a true flag exactly when there is one |
| Ui.StepKeepsInBounds | internal/ui/ui.go:178-187 | every message keeps the cursor on an item and every flag on a list position |
| Ui.MoveKeys | internal/ui/ui.go:178-185 | up/k and down/j move the cursor by one, clamped at both ends with no wrap-around, and change nothing else |
| Ui.SpaceFlipsCursor | internal/ui/ui.go:186-187 | space flips the flag under the cursor and leaves every other flag as it was |
| Ui.SpaceTwiceRestores | internal/ui/ui.go:186-187 | space twice restores every flag |
| Ui.ToggleAllFlags | internal/ui/ui.go:188-199 | after 'a' the selection is uniform: all clear if all were set, otherwise all set; flags outside the list are untouched |
| Ui.ToggleAllTwice | internal/ui/ui.go:188-199 | from all or none selected, 'a' twice restores the flags |
| Ui.ToggleAllTwiceFromPartial | internal/ui/ui.go:188-199 | from any selection other than all, a partial one included, 'a' twice leaves nothing selected |
| Ui.SelectSafeExact | internal/ui/ui.go:200-204 | after 's' an item is selected exactly when it is safe, whatever was selected before; a second 's' changes nothing |
| Ui.EnterConfirmsIff | internal/ui/ui.go:205-216 | enter confirms and ends the program if and only if some flag is set; otherwise the state is unchanged |
| Ui.QuitKeys | internal/ui/ui.go:175-177 | q and ctrl+c always set quit and end the program, leaving all else as it was |
| Ui.RunOutcome | internal/ui/ui.go:171-220 | a run from a live state ends quit or confirmed but never both, a confirmation has a flag set, and the bounds hold |
| Ui.RunProgram | internal/ui/ui.go:111-113 | the event loop applies Update message by message and stops at the first quit command |
| Ui.CollectSelected | internal/ui/ui.go:124-131 | the loop appends exactly the selected items, in list order |
| Ui.SelectedMembers | internal/ui/ui.go:124-131 | an item is returned if and only if its position is selected |
| Ui.SelectedKeepsOrder | internal/ui/ui.go:124-131 | the returned items keep the list's largest-first order |
| Ui.ViewSelectedTotal | internal/ui/ui.go:228-239 | View's "Selected:" total is the size of the selected positions |
| Ui.SelectedSizeMatchesView | internal/ui/ui.go:124-131 | the returned items add up to the total View shows for the same selection |
| Ui.ConfirmedSelectionNonEmpty | internal/ui/ui.go:205-216 | with in-bound flags, a selection that enter accepts returns at least one item |
| Ui.SelectItems | internal/ui/ui.go:101-132 | nothing for an empty list; otherwise it sorts the caller's slice in place and returns nothing after a run error or a quit, else the selected items in order |
| Ui.SelectionResultProps | internal/ui/ui.go:101-132 | the result is a largest-first subsequence of the sorted list; it is empty after quit or a run error, and non-empty after a confirmation |
| Ui.TotalSize | internal/ui/ui.go:140-144 | DisplayDryRun's total (and each category total) is the sum of the item sizes |
| Ui.GroupByCategory | internal/ui/ui.go:50-57 | the grouping pass maps each category present to its items in list order, and totals all sizes |
| Ui.GroupStep | internal/ui/ui.go:54-57 | filing one more item appends it to its own category's list, adds the category when new, and adds its size to the total |
| Ui.InCategoriesSplit | internal/ui/ui.go:62-66 | the total of a set of categories is one category's total plus the rest's |
| Ui.AddHeading | internal/ui/ui.go:62-68 | printing the heading of a new category adds its total and keeps the headings distinct and faithful |
| Ui.CategoryHeadings | internal/ui/ui.go:62-68 | one heading per category present, none twice, each with its own items and total; the headings' totals sum to the overall total |
| Ui.ScanResultTotals | internal/ui/ui.go:50-68 | both passes: the overall total is the sum of sizes, and it equals the sum of the category totals |
| Ui.DisplayScanResults | internal/ui/ui.go:39-94 | sorts the caller's slice in place, largest first, without changing its contents; the per-category totals add up to the overall total of the original items |
| Cleaner.SucceededStep | internal/cleaner/cleaner.go:23-31 | each attempt adds its item and size to the freed tally exactly when the removal succeeded |
| Cleaner.CleanItems | internal/cleaner/cleaner.go:14-39 | every item is attempted once, in order, a failure never stopping the loop; successes + failures = items; the freed total is the size of exactly the successful removals; the warning is printed iff something failed |
| Cleaner.SucceededMembers | internal/cleaner/cleaner.go:23-30 | an item counts as freed if and only if some attempt on it succeeded |
| Cleaner.SucceededAppend | internal/cleaner/cleaner.go:20-32 | the successes of a batch are those of each part, wherever the failures sit |
| Cleaner.AllRemoved | internal/cleaner/cleaner.go:23-30 | when every removal succeeds, every item is freed |
| Cleaner.FreedAtMostBatch | internal/cleaner/cleaner.go:23-30 | the freed total and the success count never exceed the batch's size and length |
| Cleaner.CleanSimulators | internal/cleaner/cleaner.go:42-75 | off darwin no command runs; on darwin "delete unavailable" runs first whatever its outcome, then one runtime deletion per Simulator item |
| Cleaner.RuntimeCallsTargets | internal/cleaner/cleaner.go:61-72 | the runtime deletions target exactly the Simulator items' paths, in order |
| Cleaner.SimulatorItemsMembers | internal/cleaner/cleaner.go:61-63 | the Simulator items are exactly the items whose category is "Simulator"; all others are skipped |
| Cleaner.SimulatorCleanupShape | internal/cleaner/cleaner.go:50-72 | "delete unavailable" runs exactly once, before the loop, and the runtime deletions after it do not depend on its outcome |
| Scenarios.ProjectWalk | internal/scanner/scanner.go:168-181 | for the two scenario projects, each with a 150 MiB build directory, the build directory is reported exactly when a pubspec.yaml sits beside it |
| Scenarios.FlutterScenario | internal/scanner/scanner.go:148-219 | of two 150 MiB build directories, only the one beside a pubspec.yaml is reported |
| Scenarios.SelectAndCleanScenario | internal/ui/ui.go:200-216 | select-safe then enter over 500/200/10 MiB items picks the 500 and 10 MiB items (510 MiB); removing them with the 10 MiB one failing frees 500 MiB |

## Left out

- The command-line wiring in `cmd/agc/main.go` is not part of this model. It only calls the
  modelled pieces.
- Rendering is not modelled: styles, `humanize.Bytes`, the printed text, and the string
  built by `View`. Only the totals those functions compute are modelled.
- The bubbletea runtime is modelled as a finite script of messages. `Run` stops at the
  first message whose `Update` returns `tea.Quit`. `runFailed` stands for `p.Run`
  returning an error.
- Ui.SelectItems: when the script ends without a quit command, the selection of the final
  state is returned. The real program would still be waiting for keys.
- Filesystem details are not modelled: symbolic links, `Lstat` against `Stat`, and
  permissions other than "cannot be read". A directory that cannot be listed is an
  `Unreadable` entry. Its callback gets an error, so it adds 0 to a size and is not
  reported.
- Walk order is not modelled. `filepath.Walk` visits entries in lexical order, and
  `os.ReadDir` returns the AVD listing sorted by name (internal/scanner/scanner.go:291);
  the model visits a directory's children, and the AVD entries, in the order the tree
  lists them.
- Sibling entries with the same name cannot occur on a real filesystem, but the tree
  allows them. `Lookup`, `Exists` and the sizes resolve a name to the first such sibling,
  and Scanner.FlutterWalkComplete and Scanner.FlutterItemsComplete are stated for the
  build directory that `Lookup` resolves, so they say nothing about a later namesake.
- Path strings are not modelled: paths are segment sequences.
  - An unset home or environment variable is the empty path. The paths built from it are
    then resolved from the root of the tree, where Go resolves them against the working
    directory.
  - An empty `basePath` means home/Documents. The filesystem root itself cannot be given
    as a Flutter base.
  - A base of `.` or `..` (`agc flutter -p .`) cannot be expressed. Go's walk then gives
    its root the name ".", which the hidden-directory test at
    internal/scanner/scanner.go:163 prunes, so no build directory is reported at all.
  - `Ext` stops only at '/'. On Windows Go also stops at '\\'. This cannot matter for the
    single entry names `Ext` is applied to here.
- Entries with an empty name are not modelled. Go's prune test would index past the end
  of such a name; the model treats them as not hidden.
- int64 sizes and their overflow are not modelled: sizes are `nat`.
- Ui.SortBySizeDesc: the order of equal-sized items is not specified, because
  `sort.Slice` is not stable.
- Ui.DisplayScanResults: the order of category headings is any order, because Go map
  iteration has none (`Host.Pick`).
- Removals and commands have no effects in the model. `os.RemoveAll` and
  `xcrun simctl ...` are oracles: one boolean per attempt.
- The freed and failure messages of `CleanSimulators` are not modelled; it keeps no tally.
- `CleanFlutterProject` (internal/cleaner/cleaner.go:78-84) is not modelled. It is an
  unused wrapper that runs `flutter clean`.
- Scanner.ScanAll keeps the Flutter walk as the code is written, so it never reports a
  `.dart_tool` item. The corrected walk is given beside it, in the finding below.

## Findings

| source | as written | input that shows it | evidently intended | confidence | as-written member | corrected member |
|---|---|---|---|---|---|---|
| internal/scanner/scanner.go:163-198 | the walk callback returns `SkipDir` for every directory whose name starts with '.' (line 163) before it tests for `.dart_tool` (line 186), so the `.dart_tool` branch can never run | a Flutter project whose `.dart_tool` directory holds more than 50 MiB: no ".dart_tool: ..." item is reported | report `.dart_tool` directories above 50 MiB, as the branch is written to do, while still not descending into hidden directories | not executed | Scanner.DartToolReportedOnlyWhenFixed | Scanner.FixedFlutterWalk |

`Scanner.FixedFlutterWalk` runs the `.dart_tool` test before the prune.
`Scanner.DartToolReportedOnlyWhenFixed` proves that it reports such a directory while the
walk as written (`Scanner.FlutterWalk`) does not. `Scanner.FixOnlyAddsDartTool` proves
that the fix changes nothing else. The scans keep the code as written.
