/** The revision orchestrators end to end (Main in
    MultiBuildBenchmarks/Program.cs and in Profiler/Program.cs): read the
    arguments, find the solutions, list the commits, and for each commit
    check it out, fetch its results and merge them; then write the merged
    table. The outside world is a `World`: which ancestor directory holds the
    solutions, what "git log" prints for given arguments, and what each
    checked-out commit offers to the build pipeline. */
module RevisionOrchestrator {
  import opened Wrappers
  import opened Text
  import opened Revisions
  import opened RevisionBuild
  import opened ResultMerge

  datatype World = World(hasSolutions: nat -> bool, log: string -> string, workspace: string -> Workspace)

  /** How a run ends: usage printed, no solutions found, an exception
      escaped after the given steps, or the table was written to a file. */
  datatype Outcome =
    | Usage
    | NoSolutions
    | Aborted(steps: seq<Step>)
    | Written(file: string, text: string, steps: seq<Step>)

  function ResultsFileName(tool: Tool): string {
    if tool == MultiBuild then "mbbenchmarks.csv" else "profiler.csv"
  }

  /** The loop over the commits so far: the steps taken, what each commit
      gave, and the merge state; or the steps up to an exception. */
  datatype Progress = Progress(steps: seq<Step>, batches: seq<Batch>, merge: Merge) | Stopped(steps: seq<Step>)

  /** One pass of the loop over the commits (MultiBuildBenchmarks/Program.cs:107-138). */
  function Visit(tool: Tool, world: World, arguments: string, p: Progress, id: string): Progress {
    match p
    case Stopped(_) => p
    case Progress(steps, batches, m) =>
      var f := Fetch(tool, world.workspace(id), arguments);
      var steps' := steps + [Checkout(id)] + f.steps;
      if f.Crashed? then Stopped(steps')
      else
        match MergeStep(m, Batch(id, f.results))
        case None => Stopped(steps')
        case Some(m') => Progress(steps', batches + [Batch(id, f.results)], m')
  }

  function AfterCommits(tool: Tool, world: World, arguments: string, start: Progress, commits: seq<string>): Progress {
    if commits == [] then start
    else Visit(tool, world, arguments, AfterCommits(tool, world, arguments, start, commits[..|commits| - 1]), commits[|commits| - 1])
  }

  /** The loop from its start, after reading the log with the given arguments. */
  function Walk(tool: Tool, world: World, inv: Invocation): Progress {
    var logArguments := LogArguments(inv.range);
    var commits := CommitList(tool, world.log(logArguments), inv.range);
    AfterCommits(tool, world, inv.forwarded, Progress([ReadLog(logArguments)], [], Start), commits)
  }

  /** What a run does, as a function of the tool, its arguments and the world. */
  function Expected(tool: Tool, args: seq<string>, world: World): (r: Outcome)
    ensures r.Usage? <==> args == []
    ensures r.NoSolutions? <==> args != [] && ParseInvocation(tool, args).basePath == "" && SolutionsMissing(world.hasSolutions)
    ensures r.Written? ==> r.file == ResultsFileName(tool)
  {
    if args == [] then Usage
    else
      var inv := ParseInvocation(tool, args);
      if inv.basePath == "" && SolutionsMissing(world.hasSolutions) then NoSolutions
      else Finish(tool, Walk(tool, world, inv))
  }

  /** How the run ends once the loop over the commits is over: the table
      is rendered and written, unless an exception escaped. */
  function Finish(tool: Tool, p: Progress): Outcome {
    match p
    case Stopped(steps) => Aborted(steps)
    case Progress(steps, _, m) =>
      match RenderedLines(m)
      case None => Aborted(steps)
      case Some(lines) => Written(ResultsFileName(tool), JoinLines(lines), steps)
  }

  lemma AfterCommitsStep(tool: Tool, world: World, arguments: string, start: Progress, commits: seq<string>, i: nat)
    requires i < |commits|
    ensures AfterCommits(tool, world, arguments, start, commits[..i + 1])
            == Visit(tool, world, arguments, AfterCommits(tool, world, arguments, start, commits[..i]), commits[i])
  {
    assert commits[..i + 1][..i] == commits[..i];
  }

  /** Once an exception escapes, the later commits change nothing. */
  lemma {:induction false} StoppedStays(tool: Tool, world: World, arguments: string, start: Progress, commits: seq<string>, i: nat)
    requires i <= |commits| && AfterCommits(tool, world, arguments, start, commits[..i]).Stopped?
    ensures AfterCommits(tool, world, arguments, start, commits) == AfterCommits(tool, world, arguments, start, commits[..i])
    decreases |commits| - i
  {
    if i < |commits| {
      AfterCommitsStep(tool, world, arguments, start, commits, i);
      StoppedStays(tool, world, arguments, start, commits, i + 1);
    } else {
      assert commits[..i] == commits;
    }
  }

  /** Main (MultiBuildBenchmarks/Program.cs:16-149, Profiler/Program.cs:16-140). */
  method RunTool(tool: Tool, args: seq<string>, world: World) returns (outcome: Outcome)
    ensures outcome == Expected(tool, args, world)
  {
    if |args| == 0 {
      return Usage;
    }
    var inv := ParseToolArguments(tool, args);
    if inv.basePath == "" {
      var found := SearchBasePath(world.hasSolutions);
      if found.None? {
        return NoSolutions;
      }
    }
    var logArguments := LogArguments(inv.range);
    var commitList := world.log(logArguments);
    var commits := ListCommits(tool, commitList, inv.range);
    var p := WalkCommits(tool, world, inv.forwarded, logArguments, commits);
    assert p == Walk(tool, world, inv);
    outcome := WriteTable(tool, p);
  }

  /** The commit list (MultiBuildBenchmarks/Program.cs:93-98): oldest first,
      or only the newest commit when MultiBuild finds it equal to the oldest. */
  method ListCommits(tool: Tool, log: string, range: CommitRange) returns (commits: seq<string>)
    ensures commits == CommitList(tool, log, range)
  {
    commits := OldestFirst(log, range.oldest);
    if tool == MultiBuild && Lower(range.newest) == Lower(range.oldest) {
      commits := [range.newest];
    }
  }

  /** Produce CSV (MultiBuildBenchmarks/Program.cs:140-149): renders the merge
      and writes it to the tool's file. */
  method WriteTable(tool: Tool, p: Progress) returns (outcome: Outcome)
    ensures outcome == Finish(tool, p)
  {
    match p {
      case Stopped(steps) =>
        outcome := Aborted(steps);
      case Progress(steps, _, m) =>
        var text := Render(m);
        match text {
          case None => outcome := Aborted(steps);
          case Some(t) => outcome := Written(ResultsFileName(tool), t, steps);
        }
    }
  }

  /** The loop over the commits (MultiBuildBenchmarks/Program.cs:107-138):
      check out, fetch the results, merge them; an exception ends it. */
  method WalkCommits(tool: Tool, world: World, arguments: string, logArguments: string, commits: seq<string>)
    returns (p: Progress)
    ensures p == AfterCommits(tool, world, arguments, Progress([ReadLog(logArguments)], [], Start), commits)
  {
    ghost var start := Progress([ReadLog(logArguments)], [], Start);
    var steps := [ReadLog(logArguments)];
    var m := Start;
    var batches: seq<Batch> := [];
    for i := 0 to |commits|
      invariant AfterCommits(tool, world, arguments, start, commits[..i]) == Progress(steps, batches, m)
    {
      AfterCommitsStep(tool, world, arguments, start, commits, i);
      var commitId := commits[i];
      steps := steps + [Checkout(commitId)];
      var fetched := Fetch(tool, world.workspace(commitId), arguments);
      steps := steps + fetched.steps;
      if fetched.Crashed? {
        StoppedStays(tool, world, arguments, start, commits, i + 1);
        return Stopped(steps);
      }
      var merged := MergeResults(m, commitId, fetched.results);
      if merged.None? {
        StoppedStays(tool, world, arguments, start, commits, i + 1);
        return Stopped(steps);
      }
      m := merged.value;
      batches := batches + [Batch(commitId, fetched.results)];
    }
    assert commits[..|commits|] == commits;
    p := Progress(steps, batches, m);
  }

  // ---------------------------------------------------------------------
  // What a run writes
  // ---------------------------------------------------------------------

  /** The loop records one batch per commit, in order, each holding what the
      build pipeline fetched for that commit, and its merge state is the
      merge of those batches. */
  lemma {:induction false} WalkRecords(tool: Tool, world: World, arguments: string, logArguments: string, commits: seq<string>)
    ensures var p := AfterCommits(tool, world, arguments, Progress([ReadLog(logArguments)], [], Start), commits);
      p.Progress? ==> Records(tool, world, arguments, commits, p)
  {
    var start := Progress([ReadLog(logArguments)], [], Start);
    if commits != [] {
      var n := |commits| - 1;
      WalkRecords(tool, world, arguments, logArguments, commits[..n]);
      var p := AfterCommits(tool, world, arguments, start, commits[..n]);
      var q := AfterCommits(tool, world, arguments, start, commits);
      if q.Progress? {
        VisitRecords(tool, world, arguments, commits[..n], p, commits[n]);
        InitLast(commits);
      }
    }
  }

  /** The loop's record of the commits so far: one batch per commit, each
      with what the build pipeline fetched for it, merged into the state. */
  predicate Records(tool: Tool, world: World, arguments: string, commits: seq<string>, p: Progress)
    requires p.Progress?
  {
    && |p.batches| == |commits|
    && MergeAll(p.batches) == Some(p.merge)
    && forall i :: 0 <= i < |commits| ==>
         && Fetch(tool, world.workspace(commits[i]), arguments).Fetched?
         && p.batches[i] == Batch(commits[i], Fetch(tool, world.workspace(commits[i]), arguments).results)
  }

  lemma VisitRecords(tool: Tool, world: World, arguments: string, commits: seq<string>, p: Progress, id: string)
    requires Visit(tool, world, arguments, p, id).Progress?
    requires p.Progress? ==> Records(tool, world, arguments, commits, p)
    ensures p.Progress? && Records(tool, world, arguments, commits + [id], Visit(tool, world, arguments, p, id))
  {
    var q := Visit(tool, world, arguments, p, id);
    var f := Fetch(tool, world.workspace(id), arguments);
    var b := Batch(id, f.results);
    assert q.batches == p.batches + [b];
    assert q.batches[..|p.batches|] == p.batches;
    assert MergeStep(p.merge, b) == Some(q.merge);
    var cs := commits + [id];
    forall i | 0 <= i < |cs|
      ensures Fetch(tool, world.workspace(cs[i]), arguments).Fetched?
      ensures q.batches[i] == Batch(cs[i], Fetch(tool, world.workspace(cs[i]), arguments).results)
    {
      if i < |commits| {
        assert cs[i] == commits[i];
      }
    }
  }

  /** A commit whose builds fail or whose run leaves no results file gives
      no column: the table has one column per commit that gave results, not
      one per commit. */
  lemma FailedRevisionHasNoColumn(tool: Tool, world: World, arguments: string, logArguments: string,
                                  commits: seq<string>)
    requires forall i :: 0 <= i < |commits| ==> world.workspace(commits[i]).engine == BuildFailed
    ensures var p := AfterCommits(tool, world, arguments, Progress([ReadLog(logArguments)], [], Start), commits);
      p.Progress? && p.merge == Start && RenderedLines(p.merge).None?
  {
    WalkRecords(tool, world, arguments, logArguments, commits);
    var p := AfterCommits(tool, world, arguments, Progress([ReadLog(logArguments)], [], Start), commits);
    NoCrashWhenEngineFails(tool, world, arguments, logArguments, commits);
    assert Contributors(p.batches) == [] by {
      ContributorsEmpty(p.batches);
      forall i | 0 <= i < |p.batches| ensures p.batches[i].results == [] {
        assert p.batches[i].results == Fetch(tool, world.workspace(commits[i]), arguments).results;
      }
    }
    MergeAllShape(p.batches);
    assert MergedFrom(p.merge, []);
  }

  lemma {:induction false} NoCrashWhenEngineFails(tool: Tool, world: World, arguments: string, logArguments: string,
                                                  commits: seq<string>)
    requires forall i :: 0 <= i < |commits| ==> world.workspace(commits[i]).engine == BuildFailed
    ensures AfterCommits(tool, world, arguments, Progress([ReadLog(logArguments)], [], Start), commits).Progress?
  {
    if commits != [] {
      var n := |commits| - 1;
      NoCrashWhenEngineFails(tool, world, arguments, logArguments, commits[..n]);
      var p := AfterCommits(tool, world, arguments, Progress([ReadLog(logArguments)], [], Start), commits[..n]);
      WalkRecords(tool, world, arguments, logArguments, commits[..n]);
      var f := Fetch(tool, world.workspace(commits[n]), arguments);
      assert f.Fetched? && f.results == [];
      assert MergeStep(p.merge, Batch(commits[n], f.results)) == Some(p.merge);
    }
  }

  lemma {:induction false} ContributorsEmpty(batches: seq<Batch>)
    ensures Contributors(batches) == [] <==> forall i :: 0 <= i < |batches| ==> batches[i].results == []
  {
    if batches != [] {
      var n := |batches| - 1;
      ContributorsEmpty(batches[..n]);
      if batches[n].results == [] {
        assert forall i :: 0 <= i < n ==> batches[..n][i] == batches[i];
      }
    }
  }

  /** When the loop finishes and its table renders, at least one revision
      contributed, and the header line lists "Test Name" and the abbreviated
      ids of the contributing commits, in commit order. */
  lemma WalkTable(tool: Tool, world: World, inv: Invocation)
    requires Walk(tool, world, inv).Progress? && RenderedLines(Walk(tool, world, inv).merge).Some?
    ensures var p := Walk(tool, world, inv);
      && Contributors(p.batches) != []
      && ((forall c :: 0 <= c < |Contributors(p.batches)| ==> ',' !in Abbrev(Contributors(p.batches)[c].id)) ==>
            Split(RenderedLines(p.merge).value[0], ',') == ["Test Name"] + Abbrevs(Contributors(p.batches)))
  {
    var logArguments := LogArguments(inv.range);
    var commits := CommitList(tool, world.log(logArguments), inv.range);
    WalkRecords(tool, world, inv.forwarded, logArguments, commits);
    var p := Walk(tool, world, inv);
    MergeAllShape(p.batches);
    if (forall c :: 0 <= c < |Contributors(p.batches)| ==> ',' !in Abbrev(Contributors(p.batches)[c].id)) {
      HeaderReadBack(p.batches, p.merge);
    }
  }

  /** When the table is written, it is the rendered merge of the loop, at
      least one revision contributed, and its header line lists "Test Name"
      and the abbreviated ids of the contributing commits, in commit order. */
  lemma WrittenTable(tool: Tool, args: seq<string>, world: World)
    requires Expected(tool, args, world).Written?
    ensures var inv := ParseInvocation(tool, args); var p := Walk(tool, world, inv);
      && p.Progress?
      && Expected(tool, args, world).text == JoinLines(RenderedLines(p.merge).value)
      && Contributors(p.batches) != []
      && ((forall c :: 0 <= c < |Contributors(p.batches)| ==> ',' !in Abbrev(Contributors(p.batches)[c].id)) ==>
            Split(RenderedLines(p.merge).value[0], ',') == ["Test Name"] + Abbrevs(Contributors(p.batches)))
  {
    var inv := ParseInvocation(tool, args);
    var p := Walk(tool, world, inv);
    assert p.Progress? && RenderedLines(p.merge).Some?;
    WalkTable(tool, world, inv);
  }
}
