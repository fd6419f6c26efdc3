# Brimstone benchmark tools, modelled in Dafny

Brimstone is a card-game simulation engine. This project models the three
programs that measure how fast it runs:

* **Benchmarks** (`Benchmarks/Program.cs`) runs a set of named tests. The
  command line gives:
  * `--filter=regex`, which selects tests by their lower-cased key;
  * `--timeout=milliseconds`;
  * any number of `--unset=setting[,setting...]` variants, each naming
    engine settings to switch off.

  The `Supervisor` runs each selected test once per variant. Before each
  run it means to reset the engine's static boolean settings to true, but
  its type-name guard never holds for a bool, so it only switches off the
  ones the variant names; nothing switches them back on. It keeps one elapsed time per variant and
  appends one CSV line per test. `WriteResults` puts three header lines in
  front of those lines and writes the text to `benchmarks.csv`.
* **MultiBuildBenchmarks** (`MultiBuildBenchmarks/Program.cs`) parses
  `--commit-range=oldest[,newest]`, `--base-path`, `--compiler-output`,
  and any other option, which is passed on to the benchmarks program. It
  then:
  * searches up to 20 ancestor directories for the solutions;
  * lists the commits with `git log`, oldest first;
  * for each commit, checks it out, restores packages, builds the engine
    and the benchmarks program, runs the benchmarks and reads back
    `benchmarks.csv`.

  Each revision that produced results becomes one column, headed by the
  first eight characters of its commit id. The merged table goes to
  `mbbenchmarks.csv`.
* **Profiler** (`Profiler/Program.cs`) is the same orchestrator, with these
  differences:
  * it never shortens the commit list when the oldest and newest commits
    are the same;
  * it joins the passed-on options with no separator;
  * `--compiler-output` is an ordinary passed-on option;
  * it does not restore packages;
  * it builds `BrimstoneProfiler`;
  * it writes `profiler.csv`.

The world outside the programs is modelled as parameters:

* The clock is a function `elapsed(test, flags)`.
* The regular expression match is a predicate `isMatch(key, filter)`.
* The directory search is `hasSolutions(depth)`.
* `git log` is a function from its arguments to its output.
* MSBuild and the benchmarks run are a `Workspace` for each commit: the
  outcome of each build, and the text of the results file if one is left.
* The programs' observable effects are listed as `Step`s: reading the log,
  checkouts, package restores, builds, runs and the deletion of the results
  file.

Modules:

| module | file | contents |
|---|---|---|
| `Wrappers` | `wrappers.dfy` | `Option` |
| `Text` | `text.dfy` | ToLower, Trim, IndexOf, Split, int parsing and printing, and the line structure of text files |
| `CommandLine` | `commandline.dfy` | the `name=value` reading shared by all three programs |
| `BenchmarkSettings` | `settings.dfy` | the settings registry, a class updated in place |
| `BenchmarkSupervisor` | `supervisor.dfy` | `Test` and the `Supervisor` class |
| `BenchmarkProgram` | `benchmarks.dfy` | the argument loop, `Benchmarks.Run` and `Main` |
| `Revisions` | `revisions.dfy` | the orchestrators' arguments, the solution search and the commit list |
| `RevisionBuild` | `pipeline.dfy` | `Benchmarks` and `TryBuild` |
| `ResultMerge` | `merge.dfy` | the merge loop and the CSV rendering |
| `RevisionOrchestrator` | `orchestrator.dfy` | the orchestrators' `Main` from end to end |
| `ResultsExchange` | `exchange.dfy` | how the file one program writes is read by the other |

Each method that changes state or loops is proved against a function that
specifies it. The properties are then proved about those functions:

* argument parsing succeeds exactly when every argument is accepted;
* one variant is added per `--unset`;
* what a settings reset leaves behind;
* the results file reads back as its header and its rows;
* a commit range round-trips;
* how the passed-on options reach the benchmarks program;
* the order of the commits and the build steps;
* the merged table's header and rows come from the contributing revisions'
  files.

## Model

| member | source | states |
|---|---|---|
| `Text.Trim` | MultiBuildBenchmarks/Program.cs:93 | the trimmed text is a slice of the input with only white space before and after it, and it neither starts nor ends with white space |
| `Text.Lower` | Benchmarks/Program.cs:188 | the lower-cased text has the input's length, and each character is the input's character lower-cased |
| `Text.IndexOf` | Benchmarks/Program.cs:217 | -1 exactly when the character does not occur; otherwise an index of the character with no earlier occurrence |
| `Text.TrimUnpadded` | MultiBuildBenchmarks/Program.cs:39-40 | trimming text that has no white space at either end leaves it unchanged |
| `Text.Split` | MultiBuildBenchmarks/Program.cs:130 | there is at least one piece; no piece holds the separator; there are two or more pieces exactly when the text holds the separator |
| `Text.NonEmpty` | Benchmarks/Program.cs:233 | RemoveEmptyEntries keeps a piece exactly when it is one of the input pieces and is not empty |
| `Text.TryParseInt` | Benchmarks/Program.cs:224 | a parsed timeout lies in the range of a 32-bit int |
| `Text.ParseIntToString` | Benchmarks/Program.cs:224 | every 32-bit int, printed, parses back to itself |
| `Text.NatToStringValue` | Benchmarks/Program.cs:70 | the digits printed for a sample stand for that sample |
| `Text.ReadLines` | MultiBuildBenchmarks/Program.cs:181 | ReadAllLines gives no lines exactly for the empty text, and no line it gives holds a line break |
| `Text.ReadLinesJoin` | MultiBuildBenchmarks/Program.cs:181 | lines written with CRLF endings and read back with ReadAllLines are the same lines, when none holds a line break |
| `CommandLine.SplitArgument` | Benchmarks/Program.cs:214-218 | the name holds no "=" and no white space at either end; name and value together are no longer than the argument |
| `CommandLine.SplitUnpadded` | Benchmarks/Program.cs:214-218 | with no white space around the name, the argument splits at its first "=" into the lower-cased name and the rest; without "=", the value is empty |
| `CommandLine.SplitJoinedArgument` | MultiBuildBenchmarks/Program.cs:31-35 | `name=value` reads back as the lower-cased name and the unchanged value |
| `CommandLine.SplitLeadingSpace` | Benchmarks/Program.cs:217-218 | white space before the name is trimmed but still counted when the value is cut, so the value keeps the "=" |
| `BenchmarkSettings.Names` | Benchmarks/Program.cs:210 | the setting names are the fields' names in declaration order |
| `BenchmarkSettings.AfterVariantsKeys` | Benchmarks/Program.cs:35-43 | configuring variants never adds or removes a setting |
| `BenchmarkSettings.ConfiguredWhenAllReset` | Benchmarks/Program.cs:37-43 | when every field passes the reset guard, a variant's flags are exactly "off if and only if named", whatever came before |
| `BenchmarkSettings.DisabledFlagPersists` | Benchmarks/Program.cs:37-43 | a field that fails the reset guard stays off in a later variant that does not name it |
| `BenchmarkSettings.NoneResetFlags` | Benchmarks/Program.cs:35-43 | when no field passes the reset guard, which is the case for every bool setting, once any variant has run, a flag the test body assigns holds the assigned value; every other flag is on exactly when it was on before and no variant named it |
| `BenchmarkSettings.Written` | Benchmarks/BenchmarkDefinitions.cs:67-85 | the settings a test body assigns take the assigned values; every other setting keeps its flag, and no setting is added |
| `BenchmarkSettings.Registry.constructor` | Benchmarks/Program.cs:33 | the registry holds one flag per setting field |
| `BenchmarkSettings.Registry.Configure` | Benchmarks/Program.cs:36-43 | the reset loop and then the disable loop leave the flags as `Configured` of the old flags: named settings off, settings that pass the guard on, the rest unchanged |
| `BenchmarkSettings.Registry.ResetAll` | Benchmarks/Program.cs:36-39 | every flag whose setting passes the reset guard is on; every other flag is unchanged; no setting is added or removed |
| `BenchmarkSettings.Registry.DisableAll` | Benchmarks/Program.cs:41-43 | every flag the variant names is off; every other flag is unchanged; no setting is added or removed |
| `BenchmarkSettings.Registry.Assign` | Benchmarks/BenchmarkDefinitions.cs:67-85 | a test body's assignments leave the flags as `Written` of the old flags |
| `BenchmarkSupervisor.NewTest` | Benchmarks/Program.cs:123-128 | a missing setup becomes the default setup; a missing iteration count becomes 100000; the label and the benchmark are kept |
| `BenchmarkSupervisor.TestName` | Benchmarks/Program.cs:29 | the CSV name starts with the label and is the label alone when the test iterates at most once |
| `BenchmarkSupervisor.TestNameShape` | Benchmarks/Program.cs:29 | the CSV name starts with the label and is longer exactly when the test iterates more than once; it adds no comma and no line break |
| `BenchmarkSupervisor.Row` | Benchmarks/Program.cs:68-71 | a test's CSV line starts with its name; it is the name alone exactly when there are no samples, and otherwise a comma follows the name |
| `BenchmarkSupervisor.RowFields` | Benchmarks/Program.cs:68-71 | a test's CSV line splits at its commas into the test name and then its samples |
| `BenchmarkSupervisor.RowNoLineBreak` | Benchmarks/Program.cs:68-71 | a test's CSV line holds no line break when its label holds none |
| `BenchmarkSupervisor.Samples` | Benchmarks/Program.cs:35-66 | one sample per variant; sample i is taken after the reset and disable loops for variant i, applied to the flags that the earlier variants and the test body's own assignments left behind |
| `BenchmarkSupervisor.SamplesWhenAllReset` | Benchmarks/Program.cs:35-65 | when every field passes the reset guard, sample i is the time taken with exactly variant i's settings off |
| `BenchmarkSupervisor.VariantColumns` | Benchmarks/Program.cs:99-100 | one column per variant |
| `BenchmarkSupervisor.HeaderColumns` | Benchmarks/Program.cs:98-111 | the column header splits into "Test Name" and the columns "1" to "n", in order |
| `BenchmarkSupervisor.HeaderLines` | Benchmarks/Program.cs:103-111 | three header lines: the first starts with "Build," and ends with the version, and the third starts with "Test Name" |
| `BenchmarkSupervisor.HeaderNoLineBreak` | Benchmarks/Program.cs:103-111 | none of the three header lines holds a line break when the version holds none |
| `BenchmarkSupervisor.ResultsFileLines` | Benchmarks/Program.cs:103-112 | the results file reads back as the three header lines and then exactly the test lines |
| `BenchmarkSupervisor.Supervisor.constructor` | Benchmarks/Program.cs:24-26 | a new supervisor keeps the timeout and has no lines |
| `BenchmarkSupervisor.Supervisor.Run` | Benchmarks/Program.cs:28-72 | throws exactly when the timeout is below -1 and there is a variant, with the first variant configured and no line appended. Otherwise the flags end as the old flags with every variant configured in order, each followed by the test body's own assignments, and exactly one line is appended, holding the test's name and the samples taken after each variant |
| `BenchmarkSupervisor.Supervisor.AppendRow` | Benchmarks/Program.cs:68-71 | appends the line holding the name and, after a comma each, the samples |
| `BenchmarkSupervisor.Supervisor.WriteResults` | Benchmarks/Program.cs:96-113 | the text is the three header lines followed by the accumulated lines |
| `BenchmarkSupervisor.Supervisor.VariantHeader` | Benchmarks/Program.cs:98-101 | the columns "1" to "n", each followed by a comma, with the last comma cut, form the column header after "Test Name" |
| `BenchmarkSupervisor.HeaderText` | Benchmarks/Program.cs:103-111 | the inserted header text is the three header lines, each ended by CRLF |
| `BenchmarkProgram.FirstMatch` | Benchmarks/Program.cs:236-241 | -1 exactly when no setting name equals the piece ignoring case; otherwise the first such name |
| `BenchmarkProgram.CanonicalizeAll` | Benchmarks/Program.cs:235-243 | a variant exactly when every piece names a setting; it then has one entry per piece, each the first setting name equal to its piece ignoring case; otherwise the first unknown piece |
| `BenchmarkProgram.CanonicalizePieces` | Benchmarks/Program.cs:235-243 | the loop computes `CanonicalizeAll` |
| `BenchmarkProgram.ParseArguments` | Benchmarks/Program.cs:212-254 | the argument loop computes `ParseOptions`: options, usage, or the invalid setting |
| `BenchmarkProgram.HandleOption` | Benchmarks/Program.cs:214-249 | one pass of the switch does to the options what `Apply` does with the argument's command: usage for an unknown option or a bad timeout, the first unknown setting for a bad `--unset` |
| `BenchmarkProgram.AllKnownIff` | Benchmarks/Program.cs:235-239 | every piece is known exactly when each one names a setting |
| `BenchmarkProgram.UnsetAccepted` | Benchmarks/Program.cs:229-245 | a non-empty `--unset` value gives a variant exactly when each of its non-empty pieces names a setting |
| `BenchmarkProgram.DecodeAccepted` | Benchmarks/Program.cs:219-249 | the loop goes on after an argument exactly when it is `--filter`, a `--timeout` that parses, or an `--unset` naming only settings |
| `BenchmarkProgram.ParsedIffFrom` | Benchmarks/Program.cs:212-254 | from any options, the loop succeeds exactly when it goes on after every argument |
| `BenchmarkProgram.ParsedIff` | Benchmarks/Program.cs:212-254 | parsing succeeds exactly when every argument is accepted |
| `BenchmarkProgram.ParsedOptions` | Benchmarks/Program.cs:220-245 | on success, the filters are concatenated in order, the last timeout wins, and one variant is appended per `--unset`, in order |
| `BenchmarkProgram.UnsetVariantsKnown` | Benchmarks/Program.cs:241-243 | every name in a variant is a setting name |
| `BenchmarkProgram.UnsetVariantsCount` | Benchmarks/Program.cs:229-245 | when every argument is accepted, there is one variant per `--unset` |
| `BenchmarkProgram.VariantsOfArguments` | Benchmarks/Program.cs:229-245 | after parsing, there is one variant per `--unset` argument, in order, holding setting names only |
| `BenchmarkProgram.FirstRejectedDecides` | Benchmarks/Program.cs:224-248 | the first argument that is not accepted ends parsing, and what follows it changes nothing |
| `BenchmarkProgram.WithDefault` | Benchmarks/Program.cs:263-264 | the variants given, or one empty variant when none is given |
| `BenchmarkProgram.Selected` | Benchmarks/Program.cs:187-188 | a test runs exactly when it is defined and its lower-cased key matches the filter; no more tests run than are defined |
| `BenchmarkProgram.SelectedEmpty` | Benchmarks/Program.cs:187-199 | no test runs exactly when no lower-cased key matches the filter |
| `BenchmarkProgram.Rows` | Benchmarks/Program.cs:187-192 | one line per test run |
| `BenchmarkProgram.FlagsAfterKeys` | Benchmarks/Program.cs:35-43 | running tests never adds or removes a setting |
| `BenchmarkProgram.RowAt` | Benchmarks/Program.cs:187-192 | line r is test r's line, sampled from the flags the earlier tests and their bodies' assignments left behind |
| `BenchmarkProgram.RowsStep` | Benchmarks/Program.cs:187-192 | running one more test appends its line and configures every variant once more, each followed by that test's own assignments |
| `BenchmarkProgram.RowSamplesWhenAllReset` | Benchmarks/Program.cs:35-71 | when every field passes the reset guard, each line splits into its name and its samples, and sample i is taken with exactly variant i's settings off |
| `BenchmarkProgram.RunTests` | Benchmarks/Program.cs:183-201 | runs the matching tests in dictionary order and ends as `RunExit`. An invalid filter pattern throws at the first match, before any test runs, and leaves the flags unchanged. A timeout below -1 throws in the first matching test, with its first variant configured. Otherwise the flags end configured once per test run, and the results text is written exactly when some test matched: the header and one line per matching test, in order |
| `BenchmarkProgram.RunExit` | Benchmarks/Program.cs:183-201 | the run throws from the pattern exactly when there is a test and the filter is not a valid pattern; it throws from the timeout exactly when the pattern is usable, the timeout is below -1, there is a variant and some key matches; no test runs exactly when the pattern is usable and no key matches; otherwise the results text is written |
| `BenchmarkProgram.RunMatching` | Benchmarks/Program.cs:187-192 | the loop runs exactly the tests whose lower-cased key matches, in order. It throws exactly when the timeout is below -1, there is a variant and some test matches, and then no line is written. Otherwise the supervisor's lines are their rows, the flags are configured once per test run, with each test's own assignments, and the result tells whether any test ran |
| `BenchmarkProgram.RunEntry` | Benchmarks/Program.cs:188-191 | one pass of the loop throws exactly when the test matches and the timeout is below -1; otherwise it extends the run by the test exactly when its key matches, keeping the lines and flags those of the extended run |
| `BenchmarkProgram.RunNext` | Benchmarks/Program.cs:188-190 | running one more matching test throws exactly when the timeout is below -1, with only its first variant configured; otherwise it appends its row, sampled from the flags the earlier tests left behind, and configures every variant once more, with the test's own assignments |
| `BenchmarkProgram.ResultsFileRows` | Benchmarks/Program.cs:194-197 | the written file reads back as the three header lines and then each test's line, in the order the tests ran |
| `BenchmarkProgram.RunProgram` | Benchmarks/Program.cs:203-283 | Main ends as `ExpectedExit`: usage, an invalid setting, the exception of an invalid filter or of a timeout below -1, no tests, or the written results text. Usage, an invalid setting and an invalid filter leave the flags untouched |
| `BenchmarkProgram.ExpectedExit` | Benchmarks/Program.cs:203-283 | usage exactly when argument parsing asks for it; an invalid setting exactly when parsing rejects one, naming it; the filter exception exactly when parsing succeeds, some test exists and the filter is not a valid pattern; the timeout exception exactly when parsing succeeds, the pattern is usable, the timeout is below -1 and some key matches; no tests exactly when parsing succeeds and no key matches a usable filter |
| `Revisions.SplitCommitRange` | MultiBuildBenchmarks/Program.cs:37-44 | without a comma, the value is the oldest commit and the newest is kept; with one, both parts are trimmed and the oldest holds no comma |
| `Revisions.CommitRangeRoundTrip` | MultiBuildBenchmarks/Program.cs:37-44 | `oldest,newest` reads back as the two ids |
| `Revisions.CommitRangePadded` | MultiBuildBenchmarks/Program.cs:39-40 | spaces around either id are dropped |
| `Revisions.ToolCommands` | MultiBuildBenchmarks/Program.cs:29-36 | one command per argument |
| `Revisions.InvocationStep` | MultiBuildBenchmarks/Program.cs:29-60 | the argument loop handles its arguments one after another |
| `Revisions.ParseToolArguments` | MultiBuildBenchmarks/Program.cs:29-60 | the argument loop computes `ParseInvocation`, for MultiBuild and for the profiler |
| `Revisions.HandleArgument` | MultiBuildBenchmarks/Program.cs:36-54 | the switch on one argument does what `ApplyTool` does to the invocation |
| `Revisions.SetCommitRange` | MultiBuildBenchmarks/Program.cs:38-43 | the `--commit-range` branch computes `SplitCommitRange` |
| `Revisions.Passed` | MultiBuildBenchmarks/Program.cs:52 | every passed-on option is `name=value` |
| `Revisions.ForwardedOf` | Profiler/Program.cs:46-48 | the passed-on text is the passed-on options in order: each followed by a space for MultiBuild, run together for the profiler |
| `Revisions.MultiBuildForwardsArguments` | MultiBuildBenchmarks/Program.cs:51-53 | split at its spaces, MultiBuild's passed-on text gives back each `name=value`, when none holds a space |
| `Revisions.ProfilerRunsArgumentsTogether` | Profiler/Program.cs:46-48 | the profiler's passed-on text is one single argument, however many options were passed |
| `Revisions.CompilerOutputOption` | MultiBuildBenchmarks/Program.cs:48-50 | MultiBuild takes `--compiler-output` for itself; the profiler passes it on |
| `Revisions.SearchBasePath` | MultiBuildBenchmarks/Program.cs:62-79 | finds the first depth below 20 that holds both solutions; nothing exactly when no such depth exists |
| `Revisions.LogArguments` | MultiBuildBenchmarks/Program.cs:84 | the `git log` arguments start with the format option and the oldest commit; with a newest commit they end with it, and without one they are that start alone |
| `Revisions.TrimAll` | MultiBuildBenchmarks/Program.cs:93 | each log line is trimmed |
| `Revisions.ReverseInPlace` | MultiBuildBenchmarks/Program.cs:95 | the list ends reversed |
| `Revisions.ReversedAt` | MultiBuildBenchmarks/Program.cs:95 | element k of the reversed list is element n-1-k of the list |
| `Revisions.AppendReversed` | MultiBuildBenchmarks/Program.cs:94-95 | adding an element and then reversing the list gives that element first and then the list from its last element to its first |
| `Revisions.OldestFirst` | MultiBuildBenchmarks/Program.cs:93-95 | builds `CommitOrder`: the trimmed log lines, then the oldest commit, reversed |
| `Revisions.CommitOrder` | MultiBuildBenchmarks/Program.cs:93-95 | one commit more than the log has lines, the oldest commit first |
| `Revisions.CommitOrderShape` | MultiBuildBenchmarks/Program.cs:93-95 | there is one commit more than the log has lines. The oldest commit comes first. Commit k after it is the trimmed log line k from the end |
| `Revisions.EmptyLogCommits` | MultiBuildBenchmarks/Program.cs:93-95 | an empty log still gives an empty second commit after the oldest |
| `Revisions.CommitListShape` | MultiBuildBenchmarks/Program.cs:93-98 | MultiBuild benchmarks only the newest commit when it equals the oldest ignoring case; otherwise the oldest commit comes first, followed by one commit per log line |
| `Revisions.CommitList` | MultiBuildBenchmarks/Program.cs:93-98 | at least one commit; the first is the newest when MultiBuild sees the oldest and newest equal ignoring case, and the oldest otherwise |
| `RevisionBuild.TryBuild` | MultiBuildBenchmarks/Program.cs:189-223 | true exactly when the project built; an exception escapes exactly when the project cannot be loaded |
| `RevisionBuild.Fetch` | MultiBuildBenchmarks/Program.cs:152-187 | an exception escapes exactly when the engine project is missing, or the engine built and the benchmarks project is missing; otherwise the results are the lines of the file left behind when both built, and none in every other case |
| `RevisionBuild.FetchShape` | MultiBuildBenchmarks/Program.cs:152-187 | the steps come in order. The engine is built first. The benchmarks program is built only if the engine built, and runs only if both built. An exception escapes exactly when a tried project is missing. Results come only from a run that left a file, and that file is deleted |
| `RevisionBuild.RestoreOnlyForMultiBuild` | Profiler/Program.cs:143-170 | packages are restored, first, exactly for MultiBuild |
| `ResultMerge.Contributors` | MultiBuildBenchmarks/Program.cs:123 | a revision contributes exactly when it is one of the revisions and has results |
| `ResultMerge.MergeStep` | MultiBuildBenchmarks/Program.cs:123-137 | a revision without results changes nothing; one with results throws exactly when a line after its header has no comma, and otherwise adds one column and marks the names as read |
| `ResultMerge.MergeAll` | MultiBuildBenchmarks/Program.cs:107-138 | when the merge does not throw, there is one column per contributor, and the names were read exactly when some revision contributed |
| `ResultMerge.MergeStepKeeps` | MultiBuildBenchmarks/Program.cs:123-137 | merging one more revision keeps the state in step with the contributing revisions |
| `ResultMerge.MergeAllShape` | MultiBuildBenchmarks/Program.cs:107-138 | the merge throws exactly when a contributing revision has a line without a comma after its header. Otherwise: the header names the contributors in order, there is one column of second fields per contributor, and the names come from the first contributor |
| `ResultMerge.MergeResults` | MultiBuildBenchmarks/Program.cs:123-137 | the loop over one revision's lines computes `MergeStep` |
| `ResultMerge.RenderedLines` | MultiBuildBenchmarks/Program.cs:141-147 | rendering succeeds exactly when there is a first column and every row it visits exists; the first line is the header without its last comma, then one line per row of the first column |
| `ResultMerge.Render` | MultiBuildBenchmarks/Program.cs:141-147 | the nested loops build the text of `RenderedLines`, or throw when it has none |
| `ResultMerge.AppendRowLine` | MultiBuildBenchmarks/Program.cs:143-146 | the inner loop appends the row's name and cells separated by commas and a line break, and throws exactly when some column lacks the row |
| `ResultMerge.RenderRowEnd` | MultiBuildBenchmarks/Program.cs:146 | dropping the last comma of a row gives the name and the cells, separated by commas |
| `ResultMerge.HeaderReadBack` | MultiBuildBenchmarks/Program.cs:141 | the header line splits into "Test Name" and the contributors' abbreviated ids, in order |
| `ResultMerge.RowReadBack` | MultiBuildBenchmarks/Program.cs:142-147 | row r splits into its test name and one cell per contributor, each the second field of line r of that contributor's results |
| `ResultMerge.LinesReadBack` | MultiBuildBenchmarks/Program.cs:141-148 | the written file reads back as the rendered lines |
| `RevisionOrchestrator.AfterCommitsStep` | MultiBuildBenchmarks/Program.cs:107-138 | the commit loop visits the commits one after another |
| `RevisionOrchestrator.StoppedStays` | MultiBuildBenchmarks/Program.cs:107-138 | once an exception escapes, later commits change nothing |
| `RevisionOrchestrator.RunTool` | MultiBuildBenchmarks/Program.cs:17-149 | Main ends as `Expected`: usage, no solutions, an escaped exception after the given steps, or the table written to the tool's file |
| `RevisionOrchestrator.Expected` | MultiBuildBenchmarks/Program.cs:17-149 | usage exactly when there are no arguments; no solutions exactly when no base path is given and the search finds none; a written table always goes to the tool's own file |
| `RevisionOrchestrator.ListCommits` | MultiBuildBenchmarks/Program.cs:93-98 | the commit list is `CommitList`: oldest first, or only the newest commit for MultiBuild when it equals the oldest ignoring case |
| `RevisionOrchestrator.WriteTable` | MultiBuildBenchmarks/Program.cs:140-148 | after the loop, the table is rendered and written to the tool's file, unless an exception escaped or rendering throws |
| `RevisionOrchestrator.WalkCommits` | MultiBuildBenchmarks/Program.cs:107-138 | the loop computes `AfterCommits` from the log read |
| `RevisionOrchestrator.WalkRecords` | MultiBuildBenchmarks/Program.cs:107-138 | a loop that finishes records one batch per commit, in order, each the results fetched for that commit, and its state is their merge |
| `RevisionOrchestrator.VisitRecords` | MultiBuildBenchmarks/Program.cs:109-137 | one pass that finishes extends the record by its commit |
| `RevisionOrchestrator.FailedRevisionHasNoColumn` | MultiBuildBenchmarks/Program.cs:119-137 | when every engine build fails, the loop finishes with no column, and rendering throws |
| `RevisionOrchestrator.NoCrashWhenEngineFails` | MultiBuildBenchmarks/Program.cs:165-166 | a failed engine build never stops the loop |
| `RevisionOrchestrator.ContributorsEmpty` | MultiBuildBenchmarks/Program.cs:123 | no revision contributes exactly when none has results |
| `RevisionOrchestrator.WrittenTable` | MultiBuildBenchmarks/Program.cs:141-148 | a written table is the rendered merge, at least one revision contributed, and the header names "Test Name" and the contributors' ids |
| `RevisionOrchestrator.WalkTable` | MultiBuildBenchmarks/Program.cs:123-147 | when the loop finishes and the table renders, at least one revision contributed, and the header names "Test Name" and the contributors' ids in commit order when no id holds a comma |
| `ResultsExchange.MergedFromResultsFile` | MultiBuildBenchmarks/Program.cs:129-134 | for a file written by the benchmarks program, the merge reads one line per test. Each line's first field is the test's name, and its second field is the test's first-variant time |

## Left out

- Console output, the usage and progress messages, the `GC` calls and the
  timing with `Stopwatch`. A sample is the result of the parameter
  `elapsed(test, flags)`.
- The timeout path of `Supervisor.Run`: the task, the cancellation and
  `Thread.Abort`. For a timeout of -1 or more, a sample is the elapsed
  time, and nothing marks a sample as timed out. A timeout below -1 is
  modelled: `CancelAfter` rejects it outside the `try`, so `Run`,
  `RunTests`, `RunExit`, `ExpectedExit` and `RunProgram` end with
  `TimeoutException` in the first matching test. Left out is the race
  in which the cancellation fires before the task has stored its thread:
  the `catch` then calls `Abort` on a null `taskThread` (Benchmarks/Program.cs:48 and 59),
  and `Result` may stop a stopwatch the task never started. Both depend
  on timing, which the model does not have.
- `Regex.IsMatch` is the parameter `isMatch`, and whether the filter is a
  valid pattern is the parameter `validPattern`. An invalid pattern makes
  the first `IsMatch` call throw `ArgumentException`, which nothing
  catches: the model ends the run there with `FilterException`. The
  reflection over `Brimstone.Settings` is a list of `SettingField` (name
  and type name) plus a map of flags.
- Every setting is taken to be a bool. `SetValue(null, false)` would throw
  for a field of any other type; `DisableAll` switches off any named
  setting.
- The test definitions (`Benchmarks/BenchmarkDefinitions.cs`) are not part
  of this model. `LoadDefinitions` is replaced by a given list of tests,
  in dictionary order. A test's engine code is its name plus the settings
  its body assigns: `Test_RawClone`, `Test_RawClone_MT` and
  `Test_StoredClone` set `ParallelClone` to false, and
  `Test_StoredClone_MT` sets it to true (lines 67-85 of that file). The
  model applies these assignments after each sample.
- The engine's assembly version is a string parameter. The `DEBUG` build
  switch is the `Configuration` parameter.
- `TryParseInt` accepts the signs "-" and "+" of the usual cultures.
  `int.TryParse` uses the current culture's signs, and .NET also accepts
  trailing NUL characters; neither is modelled.
- `Lower` models `ToLower` on ASCII letters only. `IsWhiteSpace` knows
  TAB to CR, SPACE, NEXT LINE and NO-BREAK SPACE, not every Unicode space.
- `git`, `nuget`, MSBuild and the benchmarks process are left out:
  * a commit's `Workspace` gives the outcome of each build and the results
    file left behind;
  * `git log` is a function of its arguments;
  * the search for the solutions is `hasSolutions(depth)`, not paths.
- `--compiler-output` only chooses whether MSBuild logs to the console.
  The model records the flag but not the logging.
- The `catch (Exception)` blocks around the argument loops are never
  reached, because nothing in those loops throws, so no path models them.
- Where the behaviour of the code differs from its stated intent, the
  code is followed:
  * a revision whose build fails or that leaves no results file gets no
    column, rather than an empty one;
  * a project file that cannot be loaded throws from `finally`, because
    `p` is still null there; the run then ends without a table;
  * when no revision produced results, `resultSet[0]` throws and no file
    is written;
  * the reset loop checks `FieldType.FullName == "Boolean"`, but a bool
    field reports `"System.Boolean"`, so no setting is ever set back to
    true. A setting a variant switches off stays off for the rest of the
    run, and the settings a test body assigns carry into the next
    variant and the next test. `DisabledFlagPersists` and `NoneResetFlags`
    state this. `ConfiguredWhenAllReset`, `SamplesWhenAllReset` and
    `RowSamplesWhenAllReset` describe the evidently intended reset, and
    their hypothesis that every field passes the guard is never met by
    the real settings.
- The orchestrators keep the parsed options in separate local variables.
  The model groups them in one `Invocation` value.
