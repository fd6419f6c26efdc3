/** What the two revision orchestrators share (MultiBuildBenchmarks/Program.cs
    and Profiler/Program.cs): the command line, the search for the directory
    that holds the solutions, and the list of commits to benchmark, oldest
    first. The two programs differ in a few places, selected by `Tool`. */
module Revisions {
  import opened Wrappers
  import opened Text
  import opened CommandLine

  /** Which of the two orchestrators: MultiBuildBenchmarks or Profiler. */
  datatype Tool = MultiBuild | Profiler

  // ---------------------------------------------------------------------
  // The command line
  // ---------------------------------------------------------------------

  datatype CommitRange = CommitRange(oldest: string, newest: string)

  /** The value of --commit-range (MultiBuildBenchmarks/Program.cs:37-44):
      with a comma, the trimmed text on either side of the first comma;
      without one, the whole value as the oldest commit and the newest commit
      as it was. */
  function SplitCommitRange(value: string, newest: string): (r: CommitRange)
    ensures ',' !in value ==> r == CommitRange(value, newest)
    ensures ',' in value ==> Unpadded(r.oldest) && Unpadded(r.newest) && ',' !in r.oldest
    ensures ',' in value ==> |r.oldest| + |r.newest| < |value|
  {
    var i := IndexOf(value, ',');
    if i == -1 then CommitRange(value, newest)
    else
      var oldest := Trim(value[..i]);
      assert ',' !in oldest by {
        forall k | 0 <= k < |oldest| ensures oldest[k] != ',' {
          assert oldest[k] in value[..i];
        }
      }
      CommitRange(oldest, Trim(value[i + 1..]))
  }

  /** A range written as "oldest,newest" splits back into its two commits. */
  lemma CommitRangeRoundTrip(oldest: string, newest: string, previous: string)
    requires ',' !in oldest && Unpadded(oldest) && Unpadded(newest)
    ensures SplitCommitRange(oldest + "," + newest, previous) == CommitRange(oldest, newest)
  {
    var v := oldest + "," + newest;
    IndexOfAfter(oldest, newest, ',');
    assert v == oldest + [','] + newest;
    assert v[..|oldest|] == oldest;
    assert v[|oldest| + 1..] == newest;
    TrimUnpadded(oldest);
    TrimUnpadded(newest);
  }

  lemma TrimSpaced(s: string)
    requires Unpadded(s)
    ensures Trim([' '] + s + [' ']) == s
  {
    var t := [' '] + s + [' '];
    assert t[1..] == s + [' '];
    if s == [] {
      assert DropLeading(t[1..], IsWhiteSpace) == DropLeading([], IsWhiteSpace);
    } else {
      assert (s + [' '])[0] == s[0];
      assert DropLeading(t, IsWhiteSpace) == s + [' '];
      assert (s + [' '])[..|s|] == s;
      assert DropTrailing(s + [' '], IsWhiteSpace) == DropTrailing(s, IsWhiteSpace);
    }
  }

  /** White space around either commit of a range is dropped. */
  lemma CommitRangePadded(oldest: string, newest: string, previous: string)
    requires ',' !in oldest && Unpadded(oldest) && Unpadded(newest)
    ensures SplitCommitRange(" " + oldest + " , " + newest + " ", previous) == CommitRange(oldest, newest)
  {
    var left := [' '] + oldest + [' '];
    var right := [' '] + newest + [' '];
    var v := " " + oldest + " , " + newest + " ";
    assert v == left + [','] + right;
    IndexOfAfter(left, right, ',');
    assert v[..|left|] == left;
    assert v[|left| + 1..] == right;
    TrimSpaced(oldest);
    TrimSpaced(newest);
  }

  /** What the switch of the argument loop makes of one argument
      (MultiBuildBenchmarks/Program.cs:31-53, Profiler/Program.cs:29-48).
      Only MultiBuild knows --compiler-output; the profiler passes it on. */
  datatype ToolCommand =
    | RangeCommand(value: string)
    | BasePathCommand(path: string)
    | CompilerOutputCommand
    | ForwardCommand(arg: Argument)

  function DecodeTool(tool: Tool, arg: Argument): ToolCommand {
    if arg.name == "--commit-range" then RangeCommand(arg.value)
    else if arg.name == "--base-path" then BasePathCommand(arg.value)
    else if tool == MultiBuild && arg.name == "--compiler-output" then CompilerOutputCommand
    else ForwardCommand(arg)
  }

  function ToolCommands(tool: Tool, args: seq<string>): (r: seq<ToolCommand>)
    ensures |r| == |args|
  {
    seq(|args|, k requires 0 <= k < |args| => DecodeTool(tool, SplitArgument(args[k])))
  }

  /** What the argument loop builds: the commit range, the base path ("" for
      none), the compiler-output flag and the text passed on to the
      benchmarks program. */
  datatype Invocation = Invocation(range: CommitRange, basePath: string, compilerOutput: bool, forwarded: string)

  const NoOptions: Invocation := Invocation(CommitRange("", ""), "", false, "")

  /** An option passed on: "name=value", followed by a space for MultiBuild
      and by nothing for the profiler. */
  function ForwardedText(tool: Tool, arg: Argument): string {
    arg.name + "=" + arg.value + (if tool == MultiBuild then " " else "")
  }

  function ApplyTool(tool: Tool, inv: Invocation, c: ToolCommand): Invocation {
    match c
    case RangeCommand(v) => inv.(range := SplitCommitRange(v, inv.range.newest))
    case BasePathCommand(p) => inv.(basePath := p)
    case CompilerOutputCommand => inv.(compilerOutput := true)
    case ForwardCommand(arg) => inv.(forwarded := inv.forwarded + ForwardedText(tool, arg))
  }

  /** The rest of the argument loop from inv. */
  function InvocationFrom(tool: Tool, inv: Invocation, cs: seq<ToolCommand>): Invocation
    decreases |cs|
  {
    if cs == [] then inv else InvocationFrom(tool, ApplyTool(tool, inv, cs[0]), cs[1..])
  }

  function ParseInvocation(tool: Tool, args: seq<string>): Invocation {
    InvocationFrom(tool, NoOptions, ToolCommands(tool, args))
  }

  lemma InvocationStep(tool: Tool, inv: Invocation, cs: seq<ToolCommand>, i: nat)
    requires i < |cs|
    ensures InvocationFrom(tool, inv, cs[i..]) == InvocationFrom(tool, ApplyTool(tool, inv, cs[i]), cs[i + 1..])
  {
    assert cs[i..][0] == cs[i] && cs[i..][1..] == cs[i + 1..];
  }

  /** The argument loop (MultiBuildBenchmarks/Program.cs:20-60,
      Profiler/Program.cs:18-55), its locals kept in one Invocation. No
      argument can make it throw, so its catch block is never reached. */
  method ParseToolArguments(tool: Tool, args: seq<string>) returns (inv: Invocation)
    ensures inv == ParseInvocation(tool, args)
  {
    inv := NoOptions;
    ghost var cs := ToolCommands(tool, args);
    for i := 0 to |args|
      invariant ParseInvocation(tool, args) == InvocationFrom(tool, inv, cs[i..])
    {
      InvocationStep(tool, inv, cs, i);
      var arg := SplitArgument(args[i]);
      inv := HandleArgument(tool, inv, arg);
    }
  }

  /** One pass of the argument loop: the switch on the option name. */
  method HandleArgument(tool: Tool, inv: Invocation, arg: Argument) returns (next: Invocation)
    ensures next == ApplyTool(tool, inv, DecodeTool(tool, arg))
  {
    var name := arg.name;
    var value := arg.value;
    next := inv;
    if name == "--commit-range" {
      assert DecodeTool(tool, arg) == RangeCommand(value);
      var range := SetCommitRange(inv.range, value);
      next := next.(range := range);
    } else if name == "--base-path" {
      assert DecodeTool(tool, arg) == BasePathCommand(value);
      next := next.(basePath := value);
    } else if tool == MultiBuild && name == "--compiler-output" {
      assert DecodeTool(tool, arg) == CompilerOutputCommand;
      next := next.(compilerOutput := true);
    } else {
      assert DecodeTool(tool, arg) == ForwardCommand(arg);
      next := next.(forwarded := inv.forwarded + (name + "=" + value + (if tool == MultiBuild then " " else "")));
      assert next.forwarded == inv.forwarded + ForwardedText(tool, arg);
      assert next == ApplyTool(tool, inv, ForwardCommand(arg));
    }
  }

  /** The --commit-range case of the switch. */
  method SetCommitRange(range: CommitRange, value: string) returns (r: CommitRange)
    ensures r == SplitCommitRange(value, range.newest)
  {
    var oldestCommitID := range.oldest;
    var newestCommitID := range.newest;
    if ',' in value {
      oldestCommitID := Trim(value[..IndexOf(value, ',')]);
      newestCommitID := Trim(value[IndexOf(value, ',') + 1..]);
    } else {
      oldestCommitID := value;
    }
    r := CommitRange(oldestCommitID, newestCommitID);
  }

  // ---------------------------------------------------------------------
  // The text passed on to the benchmarks program
  // ---------------------------------------------------------------------

  /** The arguments passed on, in order, each as "name=value". */
  function Passed(cs: seq<ToolCommand>): (r: seq<string>)
    ensures forall k :: 0 <= k < |r| ==> '=' in r[k]
  {
    if cs == [] then []
    else
      var rest := Passed(cs[1..]);
      if cs[0].ForwardCommand? then
        var p := cs[0].arg.name + "=" + cs[0].arg.value;
        assert p[|cs[0].arg.name|] == '=';
        [p] + rest
      else rest
  }

  /** Strings run together with nothing between them. */
  function Concat(ss: seq<string>): string {
    if ss == [] then "" else ss[0] + Concat(ss[1..])
  }

  /** The passed-on text is the passed arguments, each followed by a space
      for MultiBuild and run together for the profiler. */
  lemma {:induction false} ForwardedOf(tool: Tool, inv: Invocation, cs: seq<ToolCommand>)
    ensures InvocationFrom(tool, inv, cs).forwarded
            == inv.forwarded + (if tool == MultiBuild then Trailing(Passed(cs), ' ') else Concat(Passed(cs)))
    decreases |cs|
  {
    if cs != [] {
      var inv' := ApplyTool(tool, inv, cs[0]);
      ForwardedOf(tool, inv', cs[1..]);
      if cs[0].ForwardCommand? {
        var p := cs[0].arg.name + "=" + cs[0].arg.value;
        assert Passed(cs) == [p] + Passed(cs[1..]);
        assert ([p] + Passed(cs[1..]))[1..] == Passed(cs[1..]);
      }
    }
  }

  /** Splitting a line at its separators when every piece is followed by one:
      the pieces and an empty last piece. */
  lemma {:induction false} SplitTrailing(ps: seq<string>, sep: char)
    requires NoneContains(ps, sep)
    ensures Split(Trailing(ps, sep), sep) == ps + [""]
  {
    if ps == [] {
      assert Trailing(ps, sep) == "";
      assert IndexOf("", sep) == -1;
    } else {
      NoneContainsTail(ps, sep);
      SplitTrailing(ps[1..], sep);
      SplitTrailingStep(ps, sep);
    }
  }

  lemma SplitTrailingStep(ps: seq<string>, sep: char)
    requires ps != [] && sep !in ps[0]
    requires Split(Trailing(ps[1..], sep), sep) == ps[1..] + [""]
    ensures Split(Trailing(ps, sep), sep) == ps + [""]
  {
    var rest, t := ps[1..], Trailing(ps[1..], sep);
    SplitAt(ps[0], t, sep);
    calc {
      Split(Trailing(ps, sep), sep);
      Split(ps[0] + [sep] + t, sep);
      [ps[0]] + Split(t, sep);
      [ps[0]] + (rest + [""]);
      { ConsAppend(ps, ""); }
      ps + [""];
    }
  }

  lemma {:induction false} NonEmptyKeeps(ps: seq<string>)
    requires forall k :: 0 <= k < |ps| ==> ps[k] != []
    ensures NonEmpty(ps + [""]) == ps
    decreases |ps|
  {
    if ps == [] {
      assert NonEmpty([""]) == [] + NonEmpty([]);
    } else {
      assert (ps + [""])[1..] == ps[1..] + [""];
      NonEmptyKeeps(ps[1..]);
      assert ps == [ps[0]] + ps[1..];
    }
  }

  /** MultiBuild passes its unknown options on as separate arguments: split
      at the spaces, with empty pieces dropped, the passed-on text gives back
      each "name=value", provided none holds a space. */
  lemma MultiBuildForwardsArguments(args: seq<string>)
    requires var ps := Passed(ToolCommands(MultiBuild, args)); NoneContains(ps, ' ')
    ensures var ps := Passed(ToolCommands(MultiBuild, args));
            NonEmpty(Split(ParseInvocation(MultiBuild, args).forwarded, ' ')) == ps
  {
    var cs := ToolCommands(MultiBuild, args);
    var ps := Passed(cs);
    ForwardedOf(MultiBuild, NoOptions, cs);
    assert ParseInvocation(MultiBuild, args).forwarded == Trailing(ps, ' ');
    SplitTrailing(ps, ' ');
    assert forall k :: 0 <= k < |ps| ==> ps[k] != [] by {
      forall k | 0 <= k < |ps| ensures ps[k] != [] {
        assert '=' in ps[k];
      }
    }
    NonEmptyKeeps(ps);
  }

  lemma {:induction false} ConcatNoSpace(ss: seq<string>)
    requires NoneContains(ss, ' ')
    ensures ' ' !in Concat(ss)
    decreases |ss|
  {
    if ss != [] {
      assert NoneContains(ss[1..], ' ');
      ConcatNoSpace(ss[1..]);
    }
  }

  /** The profiler runs its unknown options together: split at the spaces,
      the passed-on text is one single argument however many options were
      passed, provided none holds a space. */
  lemma ProfilerRunsArgumentsTogether(args: seq<string>)
    requires var ps := Passed(ToolCommands(Profiler, args)); NoneContains(ps, ' ') && ps != []
    ensures var ps := Passed(ToolCommands(Profiler, args));
            Split(ParseInvocation(Profiler, args).forwarded, ' ') == [Concat(ps)]
  {
    var cs := ToolCommands(Profiler, args);
    var ps := Passed(cs);
    ForwardedOf(Profiler, NoOptions, cs);
    assert ParseInvocation(Profiler, args).forwarded == Concat(ps);
    ConcatNoSpace(ps);
  }

  /** Only MultiBuild reads --compiler-output; the profiler passes it on. */
  lemma CompilerOutputOption(a: string)
    requires SplitArgument(a).name == "--compiler-output"
    ensures ToolCommands(MultiBuild, [a]) == [CompilerOutputCommand]
    ensures ToolCommands(Profiler, [a]) == [ForwardCommand(SplitArgument(a))]
  {
    var arg := SplitArgument(a);
    var m, p := ToolCommands(MultiBuild, [a]), ToolCommands(Profiler, [a]);
    assert m[0] == DecodeTool(MultiBuild, arg) == CompilerOutputCommand;
    assert p[0] == DecodeTool(Profiler, arg) == ForwardCommand(arg);
    Singleton(m);
    Singleton(p);
  }

  /** The arguments of the "git log" call (MultiBuildBenchmarks/Program.cs:84):
      the oldest commit, and ".." and the newest one when there is one. */
  function LogArguments(range: CommitRange): (r: string)
    ensures "log --pretty=format:\"%H\" " + range.oldest <= r
    ensures |range.newest| > 0 ==> |r| >= |range.newest| && r[|r| - |range.newest|..] == range.newest
    ensures |range.newest| == 0 <==> r == "log --pretty=format:\"%H\" " + range.oldest
  {
    "log --pretty=format:\"%H\" " + range.oldest + (if |range.newest| > 0 then ".." + range.newest else "")
  }

  // ---------------------------------------------------------------------
  // The solution directory
  // ---------------------------------------------------------------------

  /** The number of ancestors probed. */
  const MaxSearchDepth: nat := 20

  /** None of the probed ancestors holds the solutions. */
  predicate SolutionsMissing(hasSolutions: nat -> bool) {
    forall d :: 0 <= d < MaxSearchDepth ==> !hasSolutions(d)
  }

  /** The search for the solutions (MultiBuildBenchmarks/Program.cs:62-79):
      starting at the parent directory, each ancestor in turn, at most 20 of
      them. `hasSolutions(d)` tells whether the ancestor d levels above the
      parent holds both solution directories; the result is the level where
      they were found. */
  method SearchBasePath(hasSolutions: nat -> bool) returns (found: Option<nat>)
    ensures found.Some? ==> found.value < MaxSearchDepth && hasSolutions(found.value)
    ensures found.Some? ==> forall d :: 0 <= d < found.value ==> !hasSolutions(d)
    ensures found.None? <==> SolutionsMissing(hasSolutions)
  {
    var isFound := false;
    var level := 0;
    var depth := 0;
    while depth < 20 && !isFound
      invariant 0 <= depth <= 20 && level <= depth
      invariant !isFound ==> level == depth && forall d :: 0 <= d < depth ==> !hasSolutions(d)
      invariant isFound ==> level < depth && hasSolutions(level) && forall d :: 0 <= d < level ==> !hasSolutions(d)
      decreases 20 - depth
    {
      if hasSolutions(level) {
        isFound := true;
      } else {
        level := level + 1;
      }
      depth := depth + 1;
    }
    if !isFound {
      return None;
    }
    found := Some(level);
  }

  // ---------------------------------------------------------------------
  // The commits to benchmark
  // ---------------------------------------------------------------------

  function Reversed<T>(s: seq<T>): (r: seq<T>)
    ensures |r| == |s|
  {
    if s == [] then [] else Reversed(s[1..]) + [s[0]]
  }

  /** Element k of the reversed list is element |s| - 1 - k of the list. */
  lemma {:induction false} ReversedAt<T>(s: seq<T>, k: nat)
    requires k < |s|
    ensures Reversed(s)[k] == s[|s| - 1 - k]
  {
    if k < |s| - 1 {
      ReversedAt(s[1..], k);
    }
  }

  function TrimAll(lines: seq<string>): (r: seq<string>)
    ensures |r| == |lines|
    ensures forall k :: 0 <= k < |lines| ==> r[k] == Trim(lines[k])
  {
    seq(|lines|, k requires 0 <= k < |lines| => Trim(lines[k]))
  }

  /** The commits oldest first: the log lists the commits after the oldest
      one, newest first, one per line. */
  function CommitOrder(log: string, oldest: string): (r: seq<string>)
    ensures |r| == |Split(log, '\n')| + 1 && r[0] == oldest
  {
    var listed := TrimAll(Split(log, '\n')) + [oldest];
    ReversedAt(listed, 0);
    Reversed(listed)
  }

  /** List.Reverse: swaps from both ends towards the middle. */
  method ReverseInPlace<T>(a: array<T>)
    modifies a
    ensures a[..] == Reversed(old(a[..]))
  {
    ghost var original := a[..];
    var i := 0;
    var j := a.Length - 1;
    while i < j
      invariant 0 <= i <= a.Length && -1 <= j < a.Length && i + j == a.Length - 1
      invariant forall k :: 0 <= k < i ==> a[k] == original[a.Length - 1 - k]
      invariant forall k :: j < k < a.Length ==> a[k] == original[a.Length - 1 - k]
      invariant forall k :: i <= k <= j ==> a[k] == original[k]
      decreases j - i
    {
      a[i], a[j] := a[j], a[i];
      i := i + 1;
      j := j - 1;
    }
    forall k | 0 <= k < a.Length ensures a[..][k] == Reversed(original)[k] {
      ReversedAt(original, k);
    }
  }

  /** List.Add then List.Reverse: copies the list into an array one longer,
      puts x last, and reverses the array in place. */
  method AppendReversed<T>(s: seq<T>, x: T) returns (r: seq<T>)
    ensures r == Reversed(s + [x])
  {
    var list := new T[|s| + 1](_ => x);
    for k := 0 to |s|
      invariant forall m :: 0 <= m < k ==> list[m] == s[m]
      invariant list[|s|] == x
    {
      list[k] := s[k];
    }
    assert list[..] == s + [x];
    ReverseInPlace(list);
    r := list[..];
  }

  /** Builds the commit list (MultiBuildBenchmarks/Program.cs:93-95): the
      trimmed log lines, then the oldest commit, reversed in place. */
  method OldestFirst(log: string, oldest: string) returns (commits: seq<string>)
    ensures commits == CommitOrder(log, oldest)
  {
    var trimmed := TrimAll(Split(log, '\n'));
    commits := AppendReversed(trimmed, oldest);
  }

  /** The oldest commit comes first, then the log lines from the last to the
      first, each trimmed: one commit more than the log has lines. */
  lemma CommitOrderShape(log: string, oldest: string)
    ensures var lines := Split(log, '\n'); var c := CommitOrder(log, oldest);
      && |c| == |lines| + 1 && c[0] == oldest
      && forall k :: 1 <= k <= |lines| ==> c[k] == Trim(lines[|lines| - k])
  {
    var lines := Split(log, '\n');
    TrimmedReversed(lines, oldest);
  }

  lemma TrimmedReversed(lines: seq<string>, oldest: string)
    ensures var c := Reversed(TrimAll(lines) + [oldest]);
      && |c| == |lines| + 1 && c[0] == oldest
      && forall k :: 1 <= k <= |lines| ==> c[k] == Trim(lines[|lines| - k])
  {
    var trimmed := TrimAll(lines);
    ReversedAppend(trimmed, oldest);
  }

  /** The whole of a list with one more element at its end, reversed. */
  lemma ReversedAppend<T>(s: seq<T>, x: T)
    ensures var c := Reversed(s + [x]);
      && |c| == |s| + 1 && c[0] == x
      && forall k :: 1 <= k <= |s| ==> c[k] == s[|s| - k]
  {
    ReversedAppendAt(s, x, 0);
    forall k | 1 <= k <= |s| ensures Reversed(s + [x])[k] == s[|s| - k] {
      ReversedAppendAt(s, x, k);
    }
  }

  /** Reversing a list with one more element at its end: that element
      comes first, then the list from its last element to its first. */
  lemma ReversedAppendAt<T>(s: seq<T>, x: T, k: nat)
    requires k <= |s|
    ensures |Reversed(s + [x])| == |s| + 1
    ensures Reversed(s + [x])[k] == if k == 0 then x else s[|s| - k]
  {
    var t := s + [x];
    ReversedAt(t, k);
    assert t[|t| - 1 - k] == if k == 0 then x else s[|s| - k];
  }

  /** An empty log still gives a second, empty commit after the oldest one. */
  lemma EmptyLogCommits(oldest: string)
    ensures CommitOrder("", oldest) == [oldest, ""]
  {
    assert Split("", '\n') == [""];
    assert TrimAll([""]) == [""] by {
      assert Trim("") == "";
    }
    TrimmedReversed([""], oldest);
    var c := CommitOrder("", oldest);
    assert c == Reversed([""] + [oldest]);
    assert |c| == 2 && c[0] == oldest && c[1] == "";
  }

  /** The commits a tool benchmarks (MultiBuildBenchmarks/Program.cs:93-98):
      MultiBuild benchmarks only the newest commit when it equals the oldest
      ignoring case; the profiler never shortens the list. */
  function CommitList(tool: Tool, log: string, range: CommitRange): (r: seq<string>)
    ensures |r| >= 1
    ensures r[0] == if tool == MultiBuild && Lower(range.newest) == Lower(range.oldest) then range.newest else range.oldest
  {
    if tool == MultiBuild && Lower(range.newest) == Lower(range.oldest) then [range.newest]
    else CommitOrder(log, range.oldest)
  }

  lemma CommitListShape(tool: Tool, log: string, range: CommitRange)
    ensures var c := CommitList(tool, log, range);
      && (tool == MultiBuild && Lower(range.newest) == Lower(range.oldest) ==> c == [range.newest])
      && (tool == Profiler || Lower(range.newest) != Lower(range.oldest) ==>
            |c| == |Split(log, '\n')| + 1 && c[0] == range.oldest)
  {
    CommitOrderShape(log, range.oldest);
  }
}
