/** How the orchestrators merge the results files of several revisions into
    one table (MultiBuildBenchmarks/Program.cs:101-147, the same in
    Profiler/Program.cs:93-138): one column per revision that produced
    results, headed by the first eight characters of its commit id, holding
    the second field of each line after the three header lines; the test
    names come from the first such revision. */
module ResultMerge {
  import opened Wrappers
  import opened Text

  /** What one revision gave: its commit id and the lines of its results file. */
  datatype Batch = Batch(id: string, results: seq<string>)

  /** The locals of the merge loop: the header line under construction, the
      test names, one column of cells per merged revision, and whether the
      names have been taken. */
  datatype Merge = Merge(csv: string, testNames: seq<string>, resultSet: seq<seq<string>>, gotNames: bool)

  const Start: Merge := Merge("Test Name,", [], [], false)

  /** commitId.Substring(0, Math.Min(commitId.Length, 8)). */
  function Abbrev(id: string): string {
    if |id| < 8 then id else id[..8]
  }

  /** results.Skip(3): the lines after the three header lines. */
  function Body(results: seq<string>): seq<string> {
    if |results| <= 3 then [] else results[3..]
  }

  /** Every line has a second field, so that n[1] exists. */
  predicate AllPaired(body: seq<string>) {
    forall k :: 0 <= k < |body| ==> ',' in body[k]
  }

  /** n[0] of each line: the test names. */
  function FirstFields(body: seq<string>): seq<string> {
    seq(|body|, k requires 0 <= k < |body| => Split(body[k], ',')[0])
  }

  /** n[1] of each line: the column of cells. */
  function SecondFields(body: seq<string>): seq<string>
    requires AllPaired(body)
  {
    seq(|body|, k requires 0 <= k < |body| => Split(body[k], ',')[1])
  }

  /** One pass of the loop over the commits, after the results are fetched:
      nothing happens for empty results; otherwise the abbreviated id is
      added to the header, the second fields become a new column and, the
      first time only, the first fields become the test names. None when a
      line has no comma, where n[1] throws. */
  function MergeStep(m: Merge, b: Batch): (r: Merge?)
    ensures b.results == [] ==> r == Some(m)
    ensures r.None? <==> b.results != [] && !AllPaired(Body(b.results))
    ensures r.Some? && b.results != [] ==> |r.value.resultSet| == |m.resultSet| + 1 && r.value.gotNames
  {
    if b.results == [] then Some(m)
    else
      var body := Body(b.results);
      if !AllPaired(body) then None
      else Some(Merge(m.csv + Abbrev(b.id) + ",",
                      if m.gotNames then m.testNames else m.testNames + FirstFields(body),
                      m.resultSet + [SecondFields(body)], true))
  }

  type Merge? = Option<Merge>

  /** The merge state after the batches in order, None after a throw. */
  function MergeAll(batches: seq<Batch>): (r: Merge?)
    ensures r.Some? ==> |r.value.resultSet| == |Contributors(batches)|
    ensures r.Some? ==> (r.value.gotNames <==> Contributors(batches) != [])
  {
    if batches == [] then Some(Start)
    else
      match MergeAll(batches[..|batches| - 1])
      case None => None
      case Some(m) => MergeStep(m, batches[|batches| - 1])
  }

  /** The batches that contribute a column: those with results. */
  function Contributors(batches: seq<Batch>): (r: seq<Batch>)
    ensures |r| <= |batches|
    ensures forall c :: 0 <= c < |r| ==> r[c].results != [] && r[c] in batches
    ensures forall b :: b in r <==> b in batches && b.results != []
  {
    if batches == [] then []
    else
      var last := batches[|batches| - 1];
      Contributors(batches[..|batches| - 1]) + (if last.results != [] then [last] else [])
  }

  function Abbrevs(bs: seq<Batch>): seq<string> {
    seq(|bs|, c requires 0 <= c < |bs| => Abbrev(bs[c].id))
  }

  /** What the merged state holds after any number of batches: the header
      names every contributing revision in order, there is one column per
      contributor holding its second fields, and the names are the first
      contributor's. */
  predicate MergedFrom(m: Merge, cs: seq<Batch>) {
    && m.csv == "Test Name," + Trailing(Abbrevs(cs), ',')
    && |m.resultSet| == |cs|
    && (m.gotNames <==> cs != [])
    && (cs == [] ==> m.testNames == [])
    && (cs != [] ==> m.testNames == FirstFields(Body(cs[0].results)))
    && forall c :: 0 <= c < |cs| ==> AllPaired(Body(cs[c].results)) && m.resultSet[c] == SecondFields(Body(cs[c].results))
  }

  lemma MergeStepKeeps(m: Merge, cs: seq<Batch>, b: Batch)
    requires MergedFrom(m, cs)
    requires MergeStep(m, b).Some?
    ensures MergedFrom(MergeStep(m, b).value, cs + (if b.results != [] then [b] else []))
  {
    if b.results == [] {
      assert cs + [] == cs;
    } else {
      var body := Body(b.results);
      var m' := MergeStep(m, b).value;
      var cs' := cs + [b];
      assert m'.csv == m.csv + Abbrev(b.id) + ",";
      HeaderStep(m.csv, cs, b);
      assert m'.resultSet == m.resultSet + [SecondFields(body)];
      assert cs'[..|cs|] == cs && cs'[|cs|] == b;
      if cs != [] {
        assert cs'[0] == cs[0];
      }
      forall c | 0 <= c < |cs'|
        ensures AllPaired(Body(cs'[c].results)) && m'.resultSet[c] == SecondFields(Body(cs'[c].results))
      {
        if c < |cs| {
          assert cs'[c] == cs[c] && m'.resultSet[c] == m.resultSet[c];
        }
      }
    }
  }

  /** The header line grows by the abbreviated id and a comma. */
  lemma HeaderStep(csv: string, cs: seq<Batch>, b: Batch)
    requires csv == "Test Name," + Trailing(Abbrevs(cs), ',')
    ensures csv + Abbrev(b.id) + "," == "Test Name," + Trailing(Abbrevs(cs + [b]), ',')
  {
    assert Abbrevs(cs + [b]) == Abbrevs(cs) + [Abbrev(b.id)];
    TrailingAppend(Abbrevs(cs), Abbrev(b.id), ',');
  }

  /** Merging keeps the state in step with the contributing revisions, and
      throws exactly when a contributing revision has a line without a
      comma after its header. */
  lemma {:induction false} MergeAllShape(batches: seq<Batch>)
    ensures MergeAll(batches).Some? <==>
              forall c :: 0 <= c < |Contributors(batches)| ==> AllPaired(Body(Contributors(batches)[c].results))
    ensures MergeAll(batches).Some? ==> MergedFrom(MergeAll(batches).value, Contributors(batches))
  {
    if batches != [] {
      var init := batches[..|batches| - 1];
      var b := batches[|batches| - 1];
      MergeAllShape(init);
      var cs := Contributors(init);
      assert Contributors(batches) == cs + (if b.results != [] then [b] else []);
      match MergeAll(init)
      case None =>
        assert !forall c :: 0 <= c < |cs| ==> AllPaired(Body(cs[c].results));
        var c :| 0 <= c < |cs| && !AllPaired(Body(cs[c].results));
        assert Contributors(batches)[c] == cs[c];
      case Some(m) =>
        if MergeStep(m, b).Some? {
          MergeStepKeeps(m, cs, b);
        } else {
          assert Contributors(batches)[|cs|] == b;
        }
    }
  }

  /** The inner loop of the merge (MultiBuildBenchmarks/Program.cs:123-136):
      one pass over the lines after the header, collecting the second field
      of each and, the first time, the first field as a test name. */
  method MergeResults(m: Merge, commitId: string, results: seq<string>) returns (r: Merge?)
    ensures r == MergeStep(m, Batch(commitId, results))
  {
    if results == [] {
      return Some(m);
    }
    var csv := m.csv + Abbrev(commitId) + ",";
    var these: seq<string> := [];
    var testNames := m.testNames;
    var body := Body(results);
    for k := 0 to |body|
      invariant AllPaired(body[..k])
      invariant these == SecondFields(body[..k])
      invariant testNames == if m.gotNames then m.testNames else m.testNames + FirstFields(body[..k])
    {
      var n := Split(body[k], ',');
      if |n| < 2 {
        // n[1] throws
        assert !AllPaired(body);
        return None;
      }
      assert body[..k + 1] == body[..k] + [body[k]];
      these := these + [n[1]];
      if !m.gotNames {
        testNames := testNames + [n[0]];
      }
    }
    assert body[..|body|] == body;
    r := Some(Merge(csv, testNames, m.resultSet + [these], true));
  }

  // ---------------------------------------------------------------------
  // Rendering
  // ---------------------------------------------------------------------

  /** Every row the renderer visits exists: there is a first column, there
      is a name for each of its rows, and no column is shorter than it. */
  predicate Rectangular(m: Merge) {
    && m.resultSet != []
    && |m.testNames| >= |m.resultSet[0]|
    && forall c :: 0 <= c < |m.resultSet| ==> |m.resultSet[c]| >= |m.resultSet[0]|
  }

  /** Row r of the table: the cells of every column. */
  function Cells(resultSet: seq<seq<string>>, r: nat): seq<string>
    requires forall c :: 0 <= c < |resultSet| ==> r < |resultSet[c]|
  {
    seq(|resultSet|, c requires 0 <= c < |resultSet| => resultSet[c][r])
  }

  function RowLine(m: Merge, r: nat): string
    requires r < |m.testNames|
    requires forall c :: 0 <= c < |m.resultSet| ==> r < |m.resultSet[c]|
  {
    m.testNames[r] + Prefixed(Cells(m.resultSet, r), ',')
  }

  /** The lines "Produce CSV" writes (MultiBuildBenchmarks/Program.cs:141-147):
      the header without its last comma, then one line per row of the first
      column, the name and the row's cells separated by commas. None when it
      throws: on an empty header, on an empty result set, or when a name or
      a cell is missing. */
  function RenderedLines(m: Merge): (r: Option<seq<string>>)
    ensures r.Some? <==> |m.csv| > 0 && Rectangular(m)
    ensures r.Some? ==> |r.value| == 1 + |m.resultSet[0]| && r.value[0] == m.csv[..|m.csv| - 1]
  {
    if |m.csv| == 0 || !Rectangular(m) then None
    else
      var rows := |m.resultSet[0]|;
      Some([m.csv[..|m.csv| - 1]] + seq(rows, r requires 0 <= r < rows => RowLine(m, r)))
  }

  /** Renders the table into the text of the file; None when it throws. */
  method Render(m: Merge) returns (text: Option<string>)
    ensures RenderedLines(m).None? ==> text.None?
    ensures RenderedLines(m).Some? ==> text == Some(JoinLines(RenderedLines(m).value))
  {
    var csv := m.csv;
    if |csv| == 0 {
      return None;
    }
    csv := csv[..|csv| - 1] + "\r\n";
    ghost var header := m.csv[..|m.csv| - 1];
    assert csv == JoinLines([header]);
    if |m.resultSet| == 0 {
      // resultSet[0] throws
      return None;
    }
    ghost var lines: seq<string> := [];
    var row := 0;
    while row < |m.resultSet[0]|
      invariant 0 <= row <= |m.resultSet[0]|
      invariant row <= |m.testNames| && forall c :: 0 <= c < |m.resultSet| ==> row <= |m.resultSet[c]|
      invariant |lines| == row && forall r :: 0 <= r < row ==> lines[r] == RowLine(m, r)
      invariant csv == JoinLines([header] + lines)
    {
      if row >= |m.testNames| {
        // testNames[row] throws
        return None;
      }
      var next := AppendRowLine(csv, m.testNames[row], m.resultSet, row);
      if next.None? {
        return None;
      }
      csv := next.value;
      ghost var line := RowLine(m, row);
      JoinLinesAppend([header] + lines, line);
      AppendAssoc([header], lines, [line]);
      lines := lines + [line];
      row := row + 1;
    }
    assert [header] + lines == RenderedLines(m).value;
    text := Some(csv);
  }

  /** One row of "Produce CSV" (MultiBuildBenchmarks/Program.cs:143-146):
      appends the name, each column's cell of the row and a comma after each,
      then replaces the last comma by a line break. None when a column has
      no cell in that row. */
  method AppendRowLine(csv: string, name: string, resultSet: seq<seq<string>>, row: nat) returns (r: Option<string>)
    ensures r.Some? <==> forall c :: 0 <= c < |resultSet| ==> row < |resultSet[c]|
    ensures r.Some? ==> r.value == csv + (name + Prefixed(Cells(resultSet, row), ',')) + "\r\n"
  {
    var text := csv + name + ",";
    for col := 0 to |resultSet|
      invariant forall c :: 0 <= c < col ==> row < |resultSet[c]|
      invariant text == csv + name + [','] + Trailing(seq(col, c requires 0 <= c < col => resultSet[c][row]), ',')
    {
      if row >= |resultSet[col]| {
        // resultSet[col][row] throws
        return None;
      }
      ghost var cells := seq(col, c requires 0 <= c < col => resultSet[c][row]);
      assert seq(col + 1, c requires 0 <= c < col + 1 => resultSet[c][row]) == cells + [resultSet[col][row]];
      TrailingAppend(cells, resultSet[col][row], ',');
      text := text + resultSet[col][row] + ",";
    }
    RenderRowEnd(csv, name, Cells(resultSet, row));
    text := text[..|text| - 1] + "\r\n";
    r := Some(text);
  }

  /** Dropping the trailing comma of a row and ending the line. */
  lemma RenderRowEnd(before: string, name: string, cells: seq<string>)
    ensures var csv := before + name + [','] + Trailing(cells, ',');
      |csv| >= 1 && csv[..|csv| - 1] + "\r\n" == before + (name + Prefixed(cells, ',')) + "\r\n"
  {
    CutLastSeparator(name, cells, ',');
    var tail := name + [','] + Trailing(cells, ',');
    var csv := before + name + [','] + Trailing(cells, ',');
    assert csv == before + tail;
    assert csv[..|csv| - 1] == before + tail[..|tail| - 1];
  }

  /** The header line of the written file splits into "Test Name" and the
      abbreviated ids of the contributing revisions, in order. */
  lemma HeaderReadBack(batches: seq<Batch>, m: Merge)
    requires MergeAll(batches) == Some(m) && RenderedLines(m).Some?
    requires forall c :: 0 <= c < |Contributors(batches)| ==> ',' !in Abbrev(Contributors(batches)[c].id)
    ensures Split(RenderedLines(m).value[0], ',') == ["Test Name"] + Abbrevs(Contributors(batches))
  {
    MergeAllShape(batches);
    HeaderSplit(m, Contributors(batches));
  }

  lemma HeaderSplit(m: Merge, cs: seq<Batch>)
    requires m.csv == "Test Name," + Trailing(Abbrevs(cs), ',') && RenderedLines(m).Some?
    requires forall c :: 0 <= c < |cs| ==> ',' !in Abbrev(cs[c].id)
    ensures Split(RenderedLines(m).value[0], ',') == ["Test Name"] + Abbrevs(cs)
  {
    var abbrevs := Abbrevs(cs);
    CutLastSeparator("Test Name", abbrevs, ',');
    assert "Test Name," == "Test Name" + [','];
    SplitPrefixed("Test Name", abbrevs, ',');
  }

  /** A row of the written file splits into its test name and its cells:
      the second fields of that line in each contributor's results. */
  lemma RowReadBack(batches: seq<Batch>, m: Merge, r: nat)
    requires MergeAll(batches) == Some(m) && RenderedLines(m).Some?
    requires r < |m.resultSet[0]| && ',' !in m.testNames[r]
    ensures var cs := Contributors(batches);
      && |cs| == |m.resultSet|
      && Split(RenderedLines(m).value[1 + r], ',') == [m.testNames[r]] + Cells(m.resultSet, r)
      && forall c :: 0 <= c < |cs| ==>
           && r < |Body(cs[c].results)| && ',' in Body(cs[c].results)[r]
           && Cells(m.resultSet, r)[c] == Split(Body(cs[c].results)[r], ',')[1]
  {
    MergeAllShape(batches);
    RowSplit(m, Contributors(batches), r);
  }

  lemma RowSplit(m: Merge, cs: seq<Batch>, r: nat)
    requires MergedFrom(m, cs) && RenderedLines(m).Some?
    requires r < |m.resultSet[0]| && ',' !in m.testNames[r]
    ensures |cs| == |m.resultSet|
    ensures Split(RenderedLines(m).value[1 + r], ',') == [m.testNames[r]] + Cells(m.resultSet, r)
    ensures forall c :: 0 <= c < |cs| ==>
              && r < |Body(cs[c].results)| && ',' in Body(cs[c].results)[r]
              && Cells(m.resultSet, r)[c] == Split(Body(cs[c].results)[r], ',')[1]
  {
    var cells := Cells(m.resultSet, r);
    assert RenderedLines(m).value[1 + r] == RowLine(m, r);
    forall c | 0 <= c < |cells|
      ensures r < |Body(cs[c].results)| && ',' in Body(cs[c].results)[r]
      ensures cells[c] == Split(Body(cs[c].results)[r], ',')[1] && ',' !in cells[c]
    {
      assert m.resultSet[c] == SecondFields(Body(cs[c].results));
    }
    SplitPrefixed(m.testNames[r], cells, ',');
  }

  /** Reading the written file back gives the same lines, as long as no
      test name, commit id or cell holds a line break. */
  lemma LinesReadBack(m: Merge)
    requires RenderedLines(m).Some?
    requires NoLineBreak(m.csv)
    requires forall r :: 0 <= r < |m.resultSet[0]| ==> NoLineBreak(m.testNames[r])
    requires forall c, r :: 0 <= c < |m.resultSet| && 0 <= r < |m.resultSet[c]| ==> NoLineBreak(m.resultSet[c][r])
    ensures ReadLines(JoinLines(RenderedLines(m).value)) == RenderedLines(m).value
  {
    var lines := RenderedLines(m).value;
    forall k | 0 <= k < |lines| ensures NoLineBreak(lines[k]) {
      if k > 0 {
        var r := k - 1;
        assert lines[k] == RowLine(m, r);
        PrefixedNoLineBreak(Cells(m.resultSet, r), ',');
      }
    }
    ReadLinesJoin(lines);
  }
}
