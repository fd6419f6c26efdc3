/** What the orchestrators do for one checked-out revision (the `Benchmarks`
    and `TryBuild` methods of MultiBuildBenchmarks/Program.cs and
    Profiler/Program.cs): build the engine, build the benchmarks program, run
    it, and read back the results file it leaves behind. MSBuild, the
    processes and the file system are outside the model: what they do for a
    revision is given as a `Workspace`. */
module RevisionBuild {
  import opened Wrappers
  import opened Text
  import opened Revisions

  /** What MSBuild makes of a project: it builds, it fails to build, or the
      project file cannot be loaded (InvalidProjectFileException). */
  datatype BuildOutcome = Built | BuildFailed | ProjectMissing

  /** What a checked-out revision offers: the outcome of building the engine,
      the outcome of building the benchmarks program, and the text of the
      results file the benchmarks program writes, if it writes one. */
  datatype Workspace = Workspace(engine: BuildOutcome, benchmarks: BuildOutcome, resultsFile: Option<string>)

  /** The outside effects of a run, in order. */
  datatype Step =
    | ReadLog(arguments: string)
    | Checkout(commit: string)
    | RestorePackages
    | Build(project: string, solution: string)
    | RunBenchmarks(arguments: string)
    | DeleteResults

  /** The directory of the benchmark solution next to the engine's. */
  function BenchmarkSolution(tool: Tool): string {
    if tool == MultiBuild then "BrimstoneBenchmarks" else "BrimstoneProfiler"
  }

  /** TryBuild (MultiBuildBenchmarks/Program.cs:189-223): Some(true) when the
      project built and Some(false) when it did not. A project that cannot
      be loaded leaves the project variable null, and the finally block then
      dereferences it: the exception escapes to the top, which is None. */
  function TryBuild(outcome: BuildOutcome): (r: Option<bool>)
    ensures r.None? <==> outcome == ProjectMissing
    ensures r == Some(true) <==> outcome == Built
  {
    match outcome
    case Built => Some(true)
    case BuildFailed => Some(false)
    case ProjectMissing => None
  }

  /** What fetching the results of one revision comes to: the steps taken and
      the lines of the results file (none when a build failed or no file was
      written), or the steps taken up to an escaping exception. */
  datatype Fetched = Fetched(steps: seq<Step>, results: seq<string>) | Crashed(steps: seq<Step>)

  /** The steps before the first build: only MultiBuild restores packages. */
  function Preparation(tool: Tool): seq<Step> {
    if tool == MultiBuild then [RestorePackages] else []
  }

  /** Benchmarks (MultiBuildBenchmarks/Program.cs:152-187,
      Profiler/Program.cs:143-170): restore (MultiBuild only), build the
      engine, build the benchmarks program, run it with the passed-on
      arguments, then read the results file and delete it; a missing file
      leaves the results empty. */
  function Fetch(tool: Tool, ws: Workspace, arguments: string): (r: Fetched)
    ensures r.Crashed? <==> ws.engine == ProjectMissing || (ws.engine == Built && ws.benchmarks == ProjectMissing)
    ensures r.Fetched? ==> r.results == if ws.engine == Built && ws.benchmarks == Built && ws.resultsFile.Some?
                                        then ReadLines(ws.resultsFile.value) else []
  {
    var prep := Preparation(tool);
    var engine := prep + [Build("Brimstone", "Brimstone")];
    match TryBuild(ws.engine)
    case None => Crashed(engine)
    case Some(false) => Fetched(engine, [])
    case Some(true) =>
      var benchmarks := engine + [Build("Benchmarks", BenchmarkSolution(tool))];
      match TryBuild(ws.benchmarks)
      case None => Crashed(benchmarks)
      case Some(false) => Fetched(benchmarks, [])
      case Some(true) =>
        var run := benchmarks + [RunBenchmarks(arguments)];
        match ws.resultsFile
        case None => Fetched(run, [])
        case Some(text) => Fetched(run + [DeleteResults], ReadLines(text))
  }

  /** The order of the steps and when each happens: the engine is built
      first (after the restore), the benchmarks program only when the
      engine built, the run only when both built; an exception escapes
      exactly when a project that was tried cannot be loaded; and results
      come only from a run that left a results file, which is then deleted. */
  lemma FetchShape(tool: Tool, ws: Workspace, arguments: string)
    // the engine build always comes right after the preparation
    ensures |Fetch(tool, ws, arguments).steps| > |Preparation(tool)|
    ensures Fetch(tool, ws, arguments).steps[..|Preparation(tool)| + 1] == Preparation(tool) + [Build("Brimstone", "Brimstone")]
    // the benchmarks program is built only after the engine built
    ensures Build("Benchmarks", BenchmarkSolution(tool)) in Fetch(tool, ws, arguments).steps <==> ws.engine == Built
    // it runs only after both builds succeeded
    ensures RunBenchmarks(arguments) in Fetch(tool, ws, arguments).steps <==> ws.engine == Built && ws.benchmarks == Built
    // an exception escapes exactly when a project that was tried cannot be loaded
    ensures Fetch(tool, ws, arguments).Crashed? <==>
              ws.engine == ProjectMissing || (ws.engine == Built && ws.benchmarks == ProjectMissing)
    // the results are the lines of the results file, read only after a successful run
    ensures Fetch(tool, ws, arguments).Fetched? && Fetch(tool, ws, arguments).results != [] ==>
              ws.engine == Built && ws.benchmarks == Built && ws.resultsFile.Some?
    ensures ws.engine == Built && ws.benchmarks == Built && ws.resultsFile.Some? ==>
              Fetch(tool, ws, arguments) == Fetched(Preparation(tool) + [Build("Brimstone", "Brimstone"),
                Build("Benchmarks", BenchmarkSolution(tool)), RunBenchmarks(arguments), DeleteResults],
                ReadLines(ws.resultsFile.value))
    // the file is deleted exactly when it was read
    ensures DeleteResults in Fetch(tool, ws, arguments).steps <==>
              ws.engine == Built && ws.benchmarks == Built && ws.resultsFile.Some?
  {
    var prep := Preparation(tool);
    var engine := prep + [Build("Brimstone", "Brimstone")];
    var later := [Build("Benchmarks", BenchmarkSolution(tool)), RunBenchmarks(arguments), DeleteResults];
    var f := Fetch(tool, ws, arguments);
    assert forall s :: s in later ==> s !in engine;
    if ws.engine == Built && ws.benchmarks == Built {
      var run := engine + later[..2];
      assert DeleteResults !in run;
      assert f.steps == run || f.steps == run + [DeleteResults];
      AppendFour(prep, Build("Brimstone", "Brimstone"), later[0], later[1], later[2]);
    } else if ws.engine == Built {
      var benchmarks := engine + later[..1];
      assert RunBenchmarks(arguments) !in benchmarks && DeleteResults !in benchmarks;
      assert f.steps == benchmarks;
    } else {
      assert f.steps == engine;
    }
    assert f.steps[..|prep| + 1] == engine;
  }

  lemma AppendFour<T>(s: seq<T>, a: T, b: T, c: T, d: T)
    ensures s + [a] + [b] + [c] + [d] == s + [a, b, c, d]
    ensures s + [a] + [b, c] == s + [a] + [b] + [c]
  {
  }

  /** The profiler never restores packages; MultiBuild always does first. */
  lemma RestoreOnlyForMultiBuild(tool: Tool, ws: Workspace, arguments: string)
    ensures RestorePackages in Fetch(tool, ws, arguments).steps <==> tool == MultiBuild
    ensures tool == MultiBuild ==> Fetch(tool, ws, arguments).steps[0] == RestorePackages
  {
    var f := Fetch(tool, ws, arguments);
    if tool == Profiler {
      assert forall k :: 0 <= k < |f.steps| ==> f.steps[k] != RestorePackages;
    } else {
      assert f.steps[..2][0] == RestorePackages;
    }
  }
}
