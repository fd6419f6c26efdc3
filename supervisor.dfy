/** The test record and the Supervisor of the benchmark program
    (Benchmarks/Program.cs:17-129): the Supervisor runs one test once per
    variant of disabled settings, keeps one elapsed-time sample per variant,
    and accumulates one CSV line per test, to which WriteResults prepends the
    three header lines of the result file. */
module BenchmarkSupervisor {
  import opened Wrappers
  import opened Text
  import opened BenchmarkSettings

  /** Benchmarks.DefaultIterations (Benchmarks/BenchmarkDefinitions.cs:16). */
  const DefaultIterations: int := 100000

  /** The setup factory of a test; the engine code behind it is not modelled. */
  datatype SetupCode = DefaultSetup | Setup(name: string)

  /** The benchmark code of a test: its name, and the settings it assigns
      while it runs, each with the value it assigns (Test_RawClone sets
      ParallelClone to false, Benchmarks/BenchmarkDefinitions.cs:68). What
      else the code does to the engine is not modelled. */
  datatype Benchmark = Benchmark(name: string, writes: map<string, bool>)

  /** A test: its human-readable label, its iteration count, its setup factory
      and its benchmark code. */
  datatype Test = Test(name: string, iterations: int, setup: SetupCode, benchmark: Benchmark)

  /** The Test constructor (Benchmarks/Program.cs:123-128): a missing setup
      stands for Default_Setup, a missing iteration count for 100000. */
  function NewTest(title: string, benchmark: Benchmark, setup: Option<SetupCode>, iterations: Option<int>): (t: Test)
    ensures t.name == title && t.benchmark == benchmark
    ensures setup.None? ==> t.setup == DefaultSetup
    ensures setup.Some? ==> t.setup == setup.value
    ensures iterations.None? ==> t.iterations == DefaultIterations
    ensures iterations.Some? ==> t.iterations == iterations.value
  {
    Test(title,
         if iterations.Some? then iterations.value else DefaultIterations,
         if setup.Some? then setup.value else DefaultSetup,
         benchmark)
  }

  /** The name a test's CSV line starts with (Benchmarks/Program.cs:29). */
  function TestName(t: Test): (r: string)
    ensures t.name <= r
    ensures t.iterations <= 1 ==> r == t.name
  {
    t.name + if t.iterations > 1 then "; " + IntToString(t.iterations) + " iterations" else ""
  }

  /** The CSV name is the label, lengthened exactly when the test iterates more
      than once, and it adds no comma and no line break to the label. */
  lemma TestNameShape(t: Test)
    ensures |TestName(t)| >= |t.name| && TestName(t)[..|t.name|] == t.name
    ensures |TestName(t)| > |t.name| <==> t.iterations > 1
    ensures ',' !in t.name ==> ',' !in TestName(t)
    ensures NoLineBreak(t.name) ==> NoLineBreak(TestName(t))
  {
    if t.iterations > 1 {
      var n := IntToString(t.iterations);
      var tail := "; " + n + " iterations";
      assert TestName(t) == t.name + tail;
      assert ',' !in n && ',' !in tail;
      assert NoLineBreak(tail) by {
        forall k | 0 <= k < |tail| ensures !IsLineBreak(tail[k]) {
          if 2 <= k < 2 + |n| {
            assert tail[k] == n[k - 2];
          }
        }
      }
      NoLineBreakConcat(t.name, tail);
    } else {
      assert TestName(t) == t.name;
    }
  }

  lemma NoLineBreakConcat(a: string, b: string)
    requires NoLineBreak(b)
    ensures NoLineBreak(a) ==> NoLineBreak(a + b)
  {
    if NoLineBreak(a) {
      forall k | 0 <= k < |a + b| ensures !IsLineBreak((a + b)[k]) {
        if k >= |a| {
          assert (a + b)[k] == b[k - |a|];
        }
      }
    }
  }

  function NatStrings(samples: seq<nat>): (r: seq<string>)
    ensures |r| == |samples|
  {
    seq(|samples|, k requires 0 <= k < |samples| => NatToString(samples[k]))
  }

  /** The CSV line of one test (Benchmarks/Program.cs:68-71, without its line
      break): the name, then "," and each sample. */
  function Row(t: Test, samples: seq<nat>): (r: string)
    ensures TestName(t) <= r
    ensures samples == [] <==> r == TestName(t)
    ensures samples != [] ==> r[|TestName(t)|] == ','
  {
    TestName(t) + Prefixed(NatStrings(samples), ',')
  }

  /** Reading a test's CSV line back field by field gives its name and then
      its samples, as long as the label holds no comma. */
  lemma RowFields(t: Test, samples: seq<nat>)
    requires ',' !in t.name
    ensures Split(Row(t, samples), ',') == [TestName(t)] + NatStrings(samples)
  {
    TestNameShape(t);
    SplitPrefixed(TestName(t), NatStrings(samples), ',');
  }

  lemma RowNoLineBreak(t: Test, samples: seq<nat>)
    requires NoLineBreak(t.name)
    ensures NoLineBreak(Row(t, samples))
  {
    TestNameShape(t);
    PrefixedNoLineBreak(NatStrings(samples), ',');
  }

  /** The samples of one Supervisor.Run: sample i is the time of the run of
      variant i, which starts from the flags the runs of variants 0..i-1 left
      behind, the test code's own assignments included. The clock is a
      parameter: the time a test takes when it starts under given flags. */
  function Samples(values: map<string, bool>, fields: seq<SettingField>, variants: seq<seq<string>>,
                   t: Test, elapsed: (Test, map<string, bool>) -> nat): (r: seq<nat>)
    ensures |r| == |variants|
  {
    seq(|variants|, i requires 0 <= i < |variants| => Sample(values, fields, variants[..i], variants[i], t, elapsed))
  }

  /** The time taken by the run of `variant` after the runs of `done`. */
  function Sample(values: map<string, bool>, fields: seq<SettingField>, done: seq<seq<string>>, variant: seq<string>,
                  t: Test, elapsed: (Test, map<string, bool>) -> nat): nat {
    elapsed(t, Configured(AfterVariants(values, fields, done, t.benchmark.writes), fields, variant))
  }

  /** When every field passes the reset guard, sample i depends only on
      variant i, whatever the test code assigned in earlier runs: it is the
      time taken with exactly variant i's settings off. */
  lemma SamplesWhenAllReset(values: map<string, bool>, fields: seq<SettingField>, variants: seq<seq<string>>,
                            t: Test, elapsed: (Test, map<string, bool>) -> nat, i: nat)
    requires values.Keys == NameSet(fields)
    requires forall f :: f in fields ==> ResetToTrue(f)
    requires i < |variants|
    ensures Samples(values, fields, variants, t, elapsed)[i]
            == elapsed(t, map n | n in NameSet(fields) :: n !in variants[i])
  {
    AfterVariantsKeys(values, fields, variants[..i], t.benchmark.writes);
    ConfiguredWhenAllReset(AfterVariants(values, fields, variants[..i], t.benchmark.writes), fields, variants[i]);
  }

  /** The variant columns of the header: "1" to "n" (Benchmarks/Program.cs:99-100). */
  function VariantColumns(n: nat): (r: seq<string>)
    ensures |r| == n
  {
    seq(n, i requires 0 <= i < n => NatToString(i + 1))
  }

  datatype Configuration = Debug | Release

  /** The three header lines WriteResults puts before the test lines
      (Benchmarks/Program.cs:103-111): the build banner, an empty pair of
      quoted cells, and the column header with one column per variant. */
  function HeaderLines(conf: Configuration, version: string, variantCount: nat): (r: seq<string>)
    ensures |r| == 3
    ensures "Build," <= r[0] && |r[0]| >= |version| && r[0][|r[0]| - |version|..] == version
    ensures "Test Name" <= r[2]
  {
    [ "Build," + (if conf == Debug then "Debug " else "Release ") + version,
      "\"\",\"\"",
      "Test Name" + Prefixed(VariantColumns(variantCount), ',') ]
  }

  /** The column header names the variants 1 to n in order. */
  lemma HeaderColumns(conf: Configuration, version: string, n: nat)
    ensures Split(HeaderLines(conf, version, n)[2], ',') == ["Test Name"] + VariantColumns(n)
    ensures forall i :: 0 <= i < n ==> VariantColumns(n)[i] == NatToString(i + 1)
  {
    assert NoneContains(VariantColumns(n), ',') by {
      forall k | 0 <= k < n ensures ',' !in VariantColumns(n)[k] {
        assert AllDigits(NatToString(k + 1));
      }
    }
    SplitPrefixed("Test Name", VariantColumns(n), ',');
  }

  lemma HeaderNoLineBreak(conf: Configuration, version: string, n: nat)
    requires NoLineBreak(version)
    ensures forall k :: 0 <= k < 3 ==> NoLineBreak(HeaderLines(conf, version, n)[k])
  {
    forall k | 0 <= k < n ensures NoLineBreak(VariantColumns(n)[k]) {
      assert AllDigits(NatToString(k + 1));
    }
    PrefixedNoLineBreak(VariantColumns(n), ',');
  }

  /** The result file read back line by line gives the three header lines and
      then exactly the test lines, in order. */
  lemma ResultsFileLines(conf: Configuration, version: string, n: nat, rows: seq<string>)
    requires NoLineBreak(version)
    requires forall k :: 0 <= k < |rows| ==> NoLineBreak(rows[k])
    ensures ReadLines(JoinLines(HeaderLines(conf, version, n) + rows)) == HeaderLines(conf, version, n) + rows
    ensures ReadLines(JoinLines(HeaderLines(conf, version, n) + rows))[3..] == rows
  {
    var header := HeaderLines(conf, version, n);
    var all := header + rows;
    HeaderNoLineBreak(conf, version, n);
    forall k | 0 <= k < |all| ensures NoLineBreak(all[k]) {
      if k < 3 {
        assert all[k] == header[k];
      } else {
        assert all[k] == rows[k - 3];
      }
    }
    ReadLinesJoin(all);
    assert all[3..] == rows;
  }

  /** The Supervisor: the CSV text accumulated so far, and the timeout given
      to it. `rows` is the CSV text split into its lines. */
  class Supervisor {
    const timeoutMs: int
    var csv: string
    ghost var rows: seq<string>

    ghost predicate Valid()
      reads this
    {
      csv == JoinLines(rows)
    }

    constructor (timeout: int)
      ensures Valid() && timeoutMs == timeout && rows == []
    {
      timeoutMs := timeout;
      csv := "";
      rows := [];
    }

    /** Supervisor.Run (Benchmarks/Program.cs:28-72): for each variant in
        order, configure the flags, run the test code and take one sample,
        then append the test's CSV line. The test code's assignments to the
        settings stay in place for the next variant. With a timeout of -1 or
        more a sample is the elapsed time of the run. A timeout below -1
        makes CancelAfter (line 49, outside the try) throw
        ArgumentOutOfRangeException once the first variant is configured:
        `thrown` tells so, and no line is appended. */
    method Run(t: Test, variants: seq<seq<string>>, settings: Registry,
               elapsed: (Test, map<string, bool>) -> nat)
      returns (thrown: bool)
      requires Valid() && settings.Valid()
      requires forall i, j :: 0 <= i < |variants| && 0 <= j < |variants[i]| ==> variants[i][j] in settings.values
      modifies this, settings
      ensures Valid() && settings.Valid()
      ensures thrown <==> timeoutMs < -1 && variants != []
      ensures thrown ==> settings.values == Configured(old(settings.values), settings.fields, variants[0]) && rows == old(rows)
      ensures !thrown ==> settings.values == AfterVariants(old(settings.values), settings.fields, variants, t.benchmark.writes)
      ensures !thrown ==> rows == old(rows) + [Row(t, Samples(old(settings.values), settings.fields, variants, t, elapsed))]
    {
      var results: seq<nat> := [];
      ghost var start := settings.values;
      for i := 0 to |variants|
        invariant settings.Valid() && settings.values.Keys == start.Keys
        invariant settings.values == AfterVariants(start, settings.fields, variants[..i], t.benchmark.writes)
        invariant csv == old(csv) && rows == old(rows)
        invariant |results| == i
        invariant forall k :: 0 <= k < i ==> results[k] == Sample(start, settings.fields, variants[..k], variants[k], t, elapsed)
        invariant i > 0 ==> timeoutMs >= -1
      {
        assert variants[..i + 1][..i] == variants[..i];
        settings.Configure(variants[i]);
        if timeoutMs < -1 {
          // CancellationTokenSource.CancelAfter rejects the timeout
          assert variants[..i] == [];
          return true;
        }
        // the timed run of the test code, which then assigns its settings
        var sample := elapsed(t, settings.values);
        settings.Assign(t.benchmark.writes);
        results := results + [sample];
      }
      assert variants[..|variants|] == variants;
      assert results == Samples(start, settings.fields, variants, t, elapsed);
      AppendRow(TestName(t), results);
      thrown := false;
    }

    /** The end of Supervisor.Run (Benchmarks/Program.cs:68-71): appends the
        test name, "," and each sample, and a line break. */
    method AppendRow(testName: string, results: seq<nat>)
      requires Valid()
      modifies this
      ensures Valid()
      ensures rows == old(rows) + [testName + Prefixed(NatStrings(results), ',')]
    {
      ghost var fields := NatStrings(results);
      var line := testName;
      assert fields[..0] == [];
      for k := 0 to |results|
        invariant csv == old(csv) && rows == old(rows)
        invariant line == testName + Prefixed(fields[..k], ',')
      {
        assert fields[..k + 1] == fields[..k] + [fields[k]];
        PrefixedAppend(fields[..k], fields[k], ',');
        line := line + "," + NatToString(results[k]);
      }
      assert fields[..|results|] == fields;
      JoinLinesAppend(rows, line);
      csv := csv + line + "\r\n";
      rows := rows + [line];
    }

    /** Supervisor.WriteResults (Benchmarks/Program.cs:96-113): builds the
        variant columns "1,...,n", inserts the three header lines before the
        accumulated test lines, and returns the text written to the file.
        With no variant the header cut would fail; the program always has one. */
    method WriteResults(conf: Configuration, version: string, variantCount: nat) returns (text: string)
      requires Valid() && variantCount >= 1
      modifies this
      ensures Valid()
      ensures rows == HeaderLines(conf, version, variantCount) + old(rows)
      ensures text == csv
    {
      var testHeader := VariantHeader(variantCount);
      // Insert the header lines before the test lines
      var banner := "Build," + (if conf == Debug then "Debug " else "Release ") + version;
      var headerText := banner + "\r\n" + "\"\",\"\"" + "\r\n" + "Test Name," + testHeader + "\r\n";
      HeaderText(conf, version, variantCount, testHeader);
      var header := HeaderLines(conf, version, variantCount);
      JoinLinesConcat(header, rows);
      csv := headerText + csv;
      rows := header + rows;
      text := csv;
    }

    /** The variant columns "1,...,n" of WriteResults (Benchmarks/Program.cs:98-101):
        each column followed by ",", then the last comma cut off. */
    static method VariantHeader(variantCount: nat) returns (testHeader: string)
      requires variantCount >= 1
      ensures "Test Name," + testHeader == "Test Name" + Prefixed(VariantColumns(variantCount), ',')
    {
      testHeader := "";
      for i := 1 to variantCount + 1
        invariant testHeader == Trailing(VariantColumns(i - 1), ',')
      {
        assert VariantColumns(i) == VariantColumns(i - 1) + [NatToString(i)];
        TrailingAppend(VariantColumns(i - 1), NatToString(i), ',');
        testHeader := testHeader + NatToString(i) + ",";
      }
      var columns := VariantColumns(variantCount);
      var cols := columns[1..];
      assert columns == [columns[0]] + cols;
      assert testHeader == columns[0] + "," + Trailing(cols, ',');
      CutLastSeparator(columns[0], cols, ',');
      testHeader := testHeader[..|testHeader| - 1];
    }
  }

  /** The three header lines joined with line breaks. */
  lemma HeaderText(conf: Configuration, version: string, n: nat, testHeader: string)
    requires "Test Name," + testHeader == "Test Name" + Prefixed(VariantColumns(n), ',')
    ensures JoinLines(HeaderLines(conf, version, n))
            == "Build," + (if conf == Debug then "Debug " else "Release ") + version + "\r\n"
               + "\"\",\"\"" + "\r\n" + "Test Name," + testHeader + "\r\n"
  {
    var banner := "Build," + (if conf == Debug then "Debug " else "Release ") + version;
    var quoted := "\"\",\"\"";
    var columnLine := "Test Name," + testHeader;
    var header := HeaderLines(conf, version, n);
    assert header == [banner, quoted, columnLine];
    assert header[1..] == [quoted, columnLine] && header[2..] == [columnLine];
    assert JoinLines(header[2..]) == columnLine + "\r\n" + JoinLines([]);
    assert JoinLines(header[1..]) == quoted + "\r\n" + JoinLines(header[2..]);
    assert JoinLines(header) == banner + "\r\n" + JoinLines(header[1..]);
  }
}
