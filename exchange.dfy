/** Where the two layers meet: the orchestrators read the results file the
    benchmarks program writes (Benchmarks/Program.cs:96-113 and 68-71 write
    it; MultiBuildBenchmarks/Program.cs:123-136 reads it). The merge takes the
    lines after the three header lines as the test rows, their first field as
    the test names and their second field, the first variant's time, as the
    revision's column. */
module ResultsExchange {
  import opened Text
  import opened BenchmarkSettings
  import opened BenchmarkSupervisor
  import opened BenchmarkProgram
  import opened ResultMerge

  /** The merged names are the benchmarks program's test names and the merged
      cells its first-variant times, as long as no label or version holds a
      comma or a line break. */
  lemma MergedFromResultsFile(conf: Configuration, version: string, values: map<string, bool>,
                              fields: seq<SettingField>, variants: seq<seq<string>>, tests: seq<Test>,
                              elapsed: (Test, map<string, bool>) -> nat)
    requires NoLineBreak(version) && |variants| >= 1
    requires forall k :: 0 <= k < |tests| ==> NoLineBreak(tests[k].name) && ',' !in tests[k].name
    ensures var body := Body(ReadLines(ResultsText(conf, version, values, fields, variants, tests, elapsed)));
      && |body| == |tests|
      && AllPaired(body)
      && (forall r :: 0 <= r < |tests| ==> FirstFields(body)[r] == TestName(tests[r]))
      && forall r :: 0 <= r < |tests| ==>
           SecondFields(body)[r] == NatToString(Samples(FlagsAfter(values, fields, variants, tests[..r]), fields, variants, tests[r], elapsed)[0])
  {
    ResultsFileRows(conf, version, values, fields, variants, tests, elapsed);
    var lines := ReadLines(ResultsText(conf, version, values, fields, variants, tests, elapsed));
    var rows := Rows(values, fields, variants, tests, elapsed);
    var body := Body(lines);
    assert body == rows;
    forall r | 0 <= r < |tests|
      ensures ',' in body[r]
      ensures Split(body[r], ',')[0] == TestName(tests[r])
      ensures Split(body[r], ',')[1]
              == NatToString(Samples(FlagsAfter(values, fields, variants, tests[..r]), fields, variants, tests[r], elapsed)[0])
    {
      RowAt(values, fields, variants, tests, elapsed, r);
      RowPaired(tests[r], Samples(FlagsAfter(values, fields, variants, tests[..r]), fields, variants, tests[r], elapsed));
    }
  }

  /** One test line read back: a comma, then the name and the first sample
      as its first two fields. */
  lemma RowPaired(t: Test, samples: seq<nat>)
    requires ',' !in t.name && |samples| >= 1
    ensures var fs := Split(Row(t, samples), ',');
      ',' in Row(t, samples) && |fs| >= 2 && fs[0] == TestName(t) && fs[1] == NatToString(samples[0])
  {
    RowFields(t, samples);
  }
}
