/** The benchmark program's entry point and test runner
    (Benchmarks/Program.cs:183-283): the command line sets a regular
    expression filter, a timeout and the list of variants (sets of settings
    to disable); each test whose key matches the filter is run by the
    Supervisor, and the results are written iff at least one test ran. */
module BenchmarkProgram {
  import opened Wrappers
  import opened Text
  import opened CommandLine
  import opened BenchmarkSettings
  import opened BenchmarkSupervisor

  /** The state the argument loop builds: the filter text, the timeout
      (-1 for none) and the variants (DisabledOptionsSets). */
  datatype Options = Options(filter: string, timeout: int, variants: seq<seq<string>>)

  /** How argument parsing ends: with options, with the usage text printed,
      or with an "Invalid setting option" message naming the bad piece. */
  datatype Parse = Parsed(options: Options) | ShowUsage | InvalidSetting(option: string)

  const InitialOptions: Options := Options("", -1, [])

  // ---------------------------------------------------------------------
  // Setting names in an --unset value
  // ---------------------------------------------------------------------

  /** Some setting name equals s ignoring case. */
  predicate Known(names: seq<string>, s: string) {
    exists k :: 0 <= k < |names| && Lower(names[k]) == Lower(s)
  }

  /** The first setting name equal to s ignoring case, as an index, or -1. */
  function FirstMatch(names: seq<string>, s: string): (i: int)
    ensures i == -1 <==> !Known(names, s)
    ensures i != -1 ==> 0 <= i < |names| && Lower(names[i]) == Lower(s)
    ensures i != -1 ==> forall k :: 0 <= k < i ==> Lower(names[k]) != Lower(s)
  {
    if names == [] then -1
    else if Lower(names[0]) == Lower(s) then 0
    else
      var j := FirstMatch(names[1..], s);
      assert Known(names, s) <==> Known(names[1..], s) by {
        if Known(names, s) {
          var k :| 0 <= k < |names| && Lower(names[k]) == Lower(s);
          assert names[1..][k - 1] == names[k];
        }
        if Known(names[1..], s) {
          var k :| 0 <= k < |names[1..]| && Lower(names[1..][k]) == Lower(s);
          assert names[k + 1] == names[1..][k];
        }
      }
      if j == -1 then -1 else j + 1
  }

  /** The outcome of one --unset value: the variant, in canonical casing, or
      the first piece that names no setting. */
  datatype Unset = Disabled(names: seq<string>) | Unknown(piece: string)

  function Prepend(cased: seq<string>, u: Unset): Unset {
    match u
    case Disabled(rest) => Disabled(cased + rest)
    case Unknown(p) => u
  }

  /** p is the first of the pieces that names no setting. */
  predicate FirstUnknown(pieces: seq<string>, names: seq<string>, p: string) {
    exists k :: 0 <= k < |pieces| && pieces[k] == p && !Known(names, p)
      && forall j :: 0 <= j < k ==> Known(names, pieces[j])
  }

  /** Canonicalises the pieces in order, stopping at the first unknown one
      (Benchmarks/Program.cs:235-243). */
  function CanonicalizeAll(pieces: seq<string>, names: seq<string>): (u: Unset)
    ensures u.Disabled? <==> forall k :: 0 <= k < |pieces| ==> Known(names, pieces[k])
    ensures u.Disabled? ==> |u.names| == |pieces|
    ensures u.Disabled? ==> forall k :: 0 <= k < |pieces| ==>
              u.names[k] in names && Lower(u.names[k]) == Lower(pieces[k])
              && u.names[k] == names[FirstMatch(names, pieces[k])]
    ensures u.Unknown? ==> FirstUnknown(pieces, names, u.piece)
  {
    if pieces == [] then Disabled([])
    else
      var i := FirstMatch(names, pieces[0]);
      if i == -1 then
        Unknown(pieces[0])
      else
        var rest := CanonicalizeAll(pieces[1..], names);
        if rest.Unknown? then
          FirstUnknownCons(pieces, names, rest.piece);
          rest
        else
          ConsAt(names[i], rest.names, pieces);
          Disabled([names[i]] + rest.names)
  }

  /** A known first piece does not change which piece is the first unknown one. */
  lemma FirstUnknownCons(pieces: seq<string>, names: seq<string>, p: string)
    requires pieces != [] && Known(names, pieces[0]) && FirstUnknown(pieces[1..], names, p)
    ensures FirstUnknown(pieces, names, p)
  {
    var k :| 0 <= k < |pieces| - 1 && pieces[1..][k] == p && !Known(names, p)
      && forall j :: 0 <= j < k ==> Known(names, pieces[1..][j]);
    assert pieces[k + 1] == p;
    forall j | 0 <= j < k + 1 ensures Known(names, pieces[j]) {
      if j > 0 {
        assert pieces[j] == pieces[1..][j - 1];
      }
    }
  }

  /** Element k of x + rest is x for k == 0 and rest[k - 1] after it. */
  lemma ConsAt<T, U>(x: T, rest: seq<T>, ps: seq<U>)
    requires |rest| == |ps| - 1
    ensures |[x] + rest| == |ps|
    ensures forall k :: 1 <= k < |ps| ==> ([x] + rest)[k] == rest[k - 1] && ps[k] == ps[1..][k - 1]
    ensures ps != [] ==> ([x] + rest)[0] == x
  {
  }

  /** The variant an --unset value adds (Benchmarks/Program.cs:229-245): an
      empty value disables nothing; otherwise the non-empty comma-separated
      pieces, each in its canonical casing. */
  function UnsetVariant(value: string, names: seq<string>): Unset {
    if value == [] then Disabled([])
    else CanonicalizeAll(NonEmpty(Split(value, ',')), names)
  }

  // ---------------------------------------------------------------------
  // The argument loop as a specification
  // ---------------------------------------------------------------------

  /** What the switch of the argument loop makes of one argument
      (Benchmarks/Program.cs:214-253): a lower-cased filter text, a parsed
      timeout, the outcome of an --unset value, or an unknown option. */
  datatype Command =
    | FilterCommand(text: string)
    | TimeoutCommand(parsed: Option<int>)
    | UnsetCommand(outcome: Unset)
    | UnknownCommand

  function Decode(a: string, names: seq<string>): Command {
    CommandOf(SplitArgument(a), names)
  }

  /** The switch on the option name. */
  function CommandOf(arg: Argument, names: seq<string>): Command {
    if arg.name == "--filter" then FilterCommand(Lower(arg.value))
    else if arg.name == "--timeout" then TimeoutCommand(TryParseInt(arg.value))
    else if arg.name == "--unset" then UnsetCommand(UnsetVariant(arg.value, names))
    else UnknownCommand
  }

  function Commands(args: seq<string>, names: seq<string>): (r: seq<Command>)
    ensures |r| == |args|
  {
    seq(|args|, k requires 0 <= k < |args| => Decode(args[k], names))
  }

  /** One pass of the argument loop on the options built so far: a timeout
      that does not parse and an unknown option print the usage text, an
      unknown setting name reports it; either ends the program. */
  function Apply(o: Options, c: Command): Parse {
    match c
    case FilterCommand(text) => Parsed(o.(filter := o.filter + text))
    case TimeoutCommand(t) => if t.None? then ShowUsage else Parsed(o.(timeout := t.value))
    case UnsetCommand(u) =>
      (match u
       case Unknown(p) => InvalidSetting(p)
       case Disabled(v) => Parsed(o.(variants := o.variants + [v])))
    case UnknownCommand => ShowUsage
  }

  /** The rest of the argument loop from options o. */
  function ParseFrom(o: Options, cs: seq<Command>): Parse
    decreases |cs|
  {
    if cs == [] then Parsed(o)
    else
      match Apply(o, cs[0])
      case Parsed(o') => ParseFrom(o', cs[1..])
      case ShowUsage => ShowUsage
      case InvalidSetting(p) => InvalidSetting(p)
  }

  function ParseOptions(args: seq<string>, names: seq<string>): Parse {
    ParseFrom(InitialOptions, Commands(args, names))
  }

  /** Canonicalising the pieces from position j on: the first of them, then the rest. */
  lemma CanonicalizeFrom(pieces: seq<string>, names: seq<string>, j: nat)
    requires j < |pieces|
    ensures CanonicalizeAll(pieces[j..], names)
            == var i := FirstMatch(names, pieces[j]);
               if i == -1 then Unknown(pieces[j]) else Prepend([names[i]], CanonicalizeAll(pieces[j + 1..], names))
  {
    assert pieces[j..][0] == pieces[j] && pieces[j..][1..] == pieces[j + 1..];
  }

  lemma PrependPrepend(a: seq<string>, b: seq<string>, u: Unset)
    ensures Prepend(a, Prepend(b, u)) == Prepend(a + b, u)
  {
    if u.Disabled? {
      assert a + (b + u.names) == (a + b) + u.names;
    }
  }

  /** The loop over the pieces of an --unset value
      (Benchmarks/Program.cs:235-243): each piece is replaced by the first
      setting name equal to it ignoring case; an unknown piece ends the loop. */
  method CanonicalizePieces(settingsToDisable: seq<string>, names: seq<string>) returns (u: Unset)
    ensures u == CanonicalizeAll(settingsToDisable, names)
  {
    var cased: seq<string> := [];
    assert settingsToDisable[0..] == settingsToDisable;
    for j := 0 to |settingsToDisable|
      invariant CanonicalizeAll(settingsToDisable, names) == Prepend(cased, CanonicalizeAll(settingsToDisable[j..], names))
    {
      var s := settingsToDisable[j];
      CanonicalizeFrom(settingsToDisable, names, j);
      var m := FirstMatch(names, s);
      if m == -1 {
        return Unknown(s);
      }
      // Use the exact casing
      PrependPrepend(cased, [names[m]], CanonicalizeAll(settingsToDisable[j + 1..], names));
      cased := cased + [names[m]];
    }
    assert settingsToDisable[|settingsToDisable|..] == [];
    u := Disabled(cased);
  }

  lemma ParseFromStep(o: Options, cs: seq<Command>, i: nat)
    requires i < |cs|
    ensures ParseFrom(o, cs[i..])
            == match Apply(o, cs[i])
               case Parsed(o') => ParseFrom(o', cs[i + 1..])
               case ShowUsage => ShowUsage
               case InvalidSetting(p) => InvalidSetting(p)
  {
    assert cs[i..][0] == cs[i] && cs[i..][1..] == cs[i + 1..];
  }

  /** The argument loop of Main (Benchmarks/Program.cs:212-255). */
  method ParseArguments(args: seq<string>, names: seq<string>) returns (r: Parse)
    ensures r == ParseOptions(args, names)
  {
    var o := InitialOptions;
    ghost var cs := Commands(args, names);
    assert cs[0..] == cs;
    for i := 0 to |args|
      invariant ParseOptions(args, names) == ParseFrom(o, cs[i..])
    {
      ParseFromStep(o, cs, i);
      var next := HandleOption(o, SplitArgument(args[i]), names);
      if !next.Parsed? {
        return next;
      }
      o := next.options;
    }
    r := Parsed(o);
  }

  /** One pass of the argument loop: the switch on the option name
      (Benchmarks/Program.cs:214-249). */
  method HandleOption(o: Options, arg: Argument, names: seq<string>) returns (r: Parse)
    ensures r == Apply(o, CommandOf(arg, names))
  {
    var filter, timeout, variants := o.filter, o.timeout, o.variants;
    if arg.name == "--filter" {
      assert CommandOf(arg, names) == FilterCommand(Lower(arg.value));
      filter := filter + Lower(arg.value);
    } else if arg.name == "--timeout" {
      assert CommandOf(arg, names) == TimeoutCommand(TryParseInt(arg.value));
      var parsed := TryParseInt(arg.value);
      if parsed.None? {
        return ShowUsage;
      }
      timeout := parsed.value;
    } else if arg.name == "--unset" {
      assert CommandOf(arg, names) == UnsetCommand(UnsetVariant(arg.value, names));
      if |arg.value| == 0 {
        variants := variants + [[]];
      } else {
        var settingsToDisable := NonEmpty(Split(arg.value, ','));
        var cased := CanonicalizePieces(settingsToDisable, names);
        if cased.Unknown? {
          return InvalidSetting(cased.piece);
        }
        variants := variants + [cased.names];
      }
    } else {
      assert CommandOf(arg, names) == UnknownCommand;
      return ShowUsage;
    }
    r := Parsed(Options(filter, timeout, variants));
  }

  // ---------------------------------------------------------------------
  // What the argument loop accepts and computes
  // ---------------------------------------------------------------------

  /** An argument the loop accepts, stated on the argument text: a known
      option whose value is well formed. */
  predicate Accepted(a: string, names: seq<string>) {
    ArgumentAccepted(SplitArgument(a), names)
  }

  predicate ArgumentAccepted(arg: Argument, names: seq<string>) {
    arg.name == "--filter"
    || (arg.name == "--timeout" && TryParseInt(arg.value).Some?)
    || (arg.name == "--unset" && AllKnown(NonEmpty(Split(arg.value, ',')), names))
  }

  /** Each of the pieces names a setting. */
  predicate AllKnown(pieces: seq<string>, names: seq<string>) {
    pieces == [] || (Known(names, pieces[0]) && AllKnown(pieces[1..], names))
  }

  lemma {:induction false} AllKnownIff(pieces: seq<string>, names: seq<string>)
    ensures AllKnown(pieces, names) <==> forall p :: p in pieces ==> Known(names, p)
  {
    if pieces != [] {
      AllKnownIff(pieces[1..], names);
      assert forall p :: p in pieces <==> p == pieces[0] || p in pieces[1..];
    }
  }

  /** A non-empty --unset value is accepted exactly when each of its
      non-empty pieces names a setting. */
  lemma UnsetAccepted(value: string, names: seq<string>)
    requires value != []
    ensures UnsetVariant(value, names).Disabled? <==> AllKnown(NonEmpty(Split(value, ',')), names)
  {
    var pieces := NonEmpty(Split(value, ','));
    AllKnownIff(pieces, names);
    if forall p :: p in pieces ==> Known(names, p) {
      forall k | 0 <= k < |pieces| ensures Known(names, pieces[k]) {
        assert pieces[k] in pieces;
      }
    } else {
      var p :| p in pieces && !Known(names, p);
      var k :| 0 <= k < |pieces| && pieces[k] == p;
    }
  }

  /** A command the loop goes on after. */
  predicate Proceeds(c: Command) {
    match c
    case FilterCommand(_) => true
    case TimeoutCommand(t) => t.Some?
    case UnsetCommand(u) => u.Disabled?
    case UnknownCommand => false
  }

  lemma DecodeAccepted(a: string, names: seq<string>)
    ensures Proceeds(Decode(a, names)) <==> Accepted(a, names)
  {
    CommandAccepted(SplitArgument(a), names);
  }

  lemma CommandAccepted(arg: Argument, names: seq<string>)
    ensures Proceeds(CommandOf(arg, names)) <==> ArgumentAccepted(arg, names)
  {
    if arg.name == "--unset" && arg.value != [] {
      UnsetAccepted(arg.value, names);
    }
  }

  lemma {:induction false} ParsedIffFrom(o: Options, cs: seq<Command>)
    ensures ParseFrom(o, cs).Parsed? <==> forall k :: 0 <= k < |cs| ==> Proceeds(cs[k])
    decreases |cs|
  {
    if cs != [] {
      assert forall k :: 1 <= k < |cs| ==> cs[k] == cs[1..][k - 1];
      if Apply(o, cs[0]).Parsed? {
        ParsedIffFrom(Apply(o, cs[0]).options, cs[1..]);
      }
    }
  }

  /** Parsing succeeds exactly when every argument is accepted. */
  lemma ParsedIff(args: seq<string>, names: seq<string>)
    ensures ParseOptions(args, names).Parsed? <==> forall k :: 0 <= k < |args| ==> Accepted(args[k], names)
  {
    var cs := Commands(args, names);
    ParsedIffFrom(InitialOptions, cs);
    forall k | 0 <= k < |args| ensures Proceeds(cs[k]) <==> Accepted(args[k], names) {
      DecodeAccepted(args[k], names);
    }
  }

  /** The filter texts concatenated in order. */
  function FilterOf(cs: seq<Command>): string {
    if cs == [] then ""
    else (if cs[0].FilterCommand? then cs[0].text else "") + FilterOf(cs[1..])
  }

  /** The last timeout given, or d when there is none. */
  function LastTimeout(cs: seq<Command>, d: int): int {
    if cs == [] then d
    else LastTimeout(cs[1..], if cs[0].TimeoutCommand? && cs[0].parsed.Some? then cs[0].parsed.value else d)
  }

  /** The variants given by the --unset arguments, in order. */
  function UnsetVariants(cs: seq<Command>): seq<seq<string>> {
    if cs == [] then []
    else (if cs[0].UnsetCommand? && cs[0].outcome.Disabled? then [cs[0].outcome.names] else []) + UnsetVariants(cs[1..])
  }

  /** Successful parsing concatenates the filters in order, keeps the last
      timeout, and appends one variant per --unset in order. */
  lemma {:induction false} ParsedOptions(o: Options, cs: seq<Command>)
    requires ParseFrom(o, cs).Parsed?
    ensures ParseFrom(o, cs).options
            == Options(o.filter + FilterOf(cs), LastTimeout(cs, o.timeout), o.variants + UnsetVariants(cs))
    decreases |cs|
  {
    if cs != [] {
      var c, rest := cs[0], cs[1..];
      var o' := Apply(o, c).options;
      assert ParseFrom(o, cs) == ParseFrom(o', rest);
      ParsedOptions(o', rest);
      var r := ParseFrom(o', rest).options;
      assert r.filter == o'.filter + FilterOf(rest);
      assert r.timeout == LastTimeout(rest, o'.timeout);
      assert r.variants == o'.variants + UnsetVariants(rest);
      match c
      case FilterCommand(text) =>
        assert o' == o.(filter := o.filter + text);
        assert FilterOf(cs) == text + FilterOf(rest);
        assert UnsetVariants(cs) == UnsetVariants(rest);
        assert LastTimeout(cs, o.timeout) == LastTimeout(rest, o.timeout);
        AppendAssoc(o.filter, text, FilterOf(rest));
      case TimeoutCommand(t) =>
        assert o' == o.(timeout := t.value);
        assert FilterOf(cs) == FilterOf(rest);
        assert UnsetVariants(cs) == UnsetVariants(rest);
        assert LastTimeout(cs, o.timeout) == LastTimeout(rest, t.value);
      case UnsetCommand(u) =>
        assert o' == o.(variants := o.variants + [u.names]);
        assert FilterOf(cs) == FilterOf(rest);
        assert UnsetVariants(cs) == [u.names] + UnsetVariants(rest);
        assert LastTimeout(cs, o.timeout) == LastTimeout(rest, o.timeout);
        AppendAssoc(o.variants, [u.names], UnsetVariants(rest));
      case UnknownCommand =>
    }
  }

  /** A command whose variant, if any, holds setting names only. */
  predicate NamesKnown(c: Command, names: seq<string>) {
    c.UnsetCommand? && c.outcome.Disabled? ==> forall j :: 0 <= j < |c.outcome.names| ==> c.outcome.names[j] in names
  }

  /** Decoding an argument never yields a variant with a name that is not a
      setting name. */
  lemma DecodeNamesKnown(a: string, names: seq<string>)
    ensures NamesKnown(Decode(a, names), names)
  {
    CommandNamesKnown(SplitArgument(a), names);
  }

  lemma CommandNamesKnown(arg: Argument, names: seq<string>)
    ensures NamesKnown(CommandOf(arg, names), names)
  {
  }

  lemma {:induction false} UnsetVariantsKnown(cs: seq<Command>, names: seq<string>)
    requires forall k :: 0 <= k < |cs| ==> NamesKnown(cs[k], names)
    ensures forall i, j :: 0 <= i < |UnsetVariants(cs)| && 0 <= j < |UnsetVariants(cs)[i]| ==> UnsetVariants(cs)[i][j] in names
  {
    if cs != [] {
      assert forall k :: 0 <= k < |cs[1..]| ==> cs[1..][k] == cs[k + 1];
      UnsetVariantsKnown(cs[1..], names);
      assert NamesKnown(cs[0], names);
    }
  }

  /** The number of --unset commands. */
  function UnsetCount(cs: seq<Command>): nat {
    if cs == [] then 0
    else (if cs[0].UnsetCommand? then 1 else 0) + UnsetCount(cs[1..])
  }

  /** When every command goes on, each --unset command gives one variant. */
  lemma {:induction false} UnsetVariantsCount(cs: seq<Command>)
    requires forall k :: 0 <= k < |cs| ==> Proceeds(cs[k])
    ensures |UnsetVariants(cs)| == UnsetCount(cs)
  {
    if cs != [] {
      assert forall k :: 0 <= k < |cs[1..]| ==> cs[1..][k] == cs[k + 1];
      UnsetVariantsCount(cs[1..]);
      assert Proceeds(cs[0]);
    }
  }

  /** When parsing succeeds, there is one variant per --unset argument, and
      every name in a variant is a setting name. */
  lemma VariantsOfArguments(args: seq<string>, names: seq<string>)
    requires ParseOptions(args, names).Parsed?
    ensures var vs := ParseOptions(args, names).options.variants;
      && vs == UnsetVariants(Commands(args, names))
      && |vs| == UnsetCount(Commands(args, names))
      && forall i, j :: 0 <= i < |vs| && 0 <= j < |vs[i]| ==> vs[i][j] in names
  {
    var cs := Commands(args, names);
    ParsedIffFrom(InitialOptions, cs);
    ParsedOptions(InitialOptions, cs);
    assert [] + UnsetVariants(cs) == UnsetVariants(cs);
    UnsetVariantsCount(cs);
    forall k | 0 <= k < |cs| ensures NamesKnown(cs[k], names) {
      DecodeNamesKnown(args[k], names);
    }
    UnsetVariantsKnown(cs, names);
  }

  /** The outcome is fixed by the first argument the loop does not go on
      after, whatever follows it. */
  lemma {:induction false} FirstRejectedDecides(o: Options, cs: seq<Command>, k: nat)
    requires k < |cs| && !Proceeds(cs[k])
    requires forall j :: 0 <= j < k ==> Proceeds(cs[j])
    ensures !ParseFrom(o, cs).Parsed?
    ensures ParseFrom(o, cs) == ParseFrom(o, cs[..k + 1])
    decreases k
  {
    assert cs[..k + 1][0] == cs[0];
    if k > 0 {
      assert cs[1..][..k] == cs[..k + 1][1..];
      FirstRejectedDecides(Apply(o, cs[0]).options, cs[1..], k - 1);
    } else {
      assert cs[..1][1..] == [];
    }
  }

  /** The variants the program runs: those given, or one empty variant
      (Benchmarks/Program.cs:263-264). */
  function WithDefault(variants: seq<seq<string>>): (r: seq<seq<string>>)
    ensures |r| >= 1
    ensures variants != [] ==> r == variants
    ensures variants == [] ==> r == [[]]
  {
    if variants == [] then [[]] else variants
  }

  // ---------------------------------------------------------------------
  // Running the tests
  // ---------------------------------------------------------------------

  /** An entry of the Tests dictionary, in the dictionary's order. */
  datatype TestEntry = TestEntry(key: string, test: Test)

  /** The tests whose lower-cased key matches the filter. The regular
      expression match is a parameter. */
  function Selected(tests: seq<TestEntry>, filter: string, isMatch: (string, string) -> bool): (r: seq<Test>)
    ensures |r| <= |tests|
    ensures forall t :: t in r <==>
              exists k :: 0 <= k < |tests| && tests[k].test == t && isMatch(Lower(tests[k].key), filter)
  {
    if tests == [] then []
    else
      var last := tests[|tests| - 1];
      Selected(tests[..|tests| - 1], filter, isMatch) + (if isMatch(Lower(last.key), filter) then [last.test] else [])
  }

  lemma {:induction false} SelectedEmpty(tests: seq<TestEntry>, filter: string, isMatch: (string, string) -> bool)
    ensures Selected(tests, filter, isMatch) == [] <==> forall k :: 0 <= k < |tests| ==> !isMatch(Lower(tests[k].key), filter)
  {
    if tests != [] {
      var init, last := tests[..|tests| - 1], tests[|tests| - 1];
      SelectedEmpty(init, filter, isMatch);
      var added := if isMatch(Lower(last.key), filter) then [last.test] else [];
      assert Selected(tests, filter, isMatch) == Selected(init, filter, isMatch) + added;
      assert forall k :: 0 <= k < |init| ==> init[k] == tests[k];
    }
  }

  /** The flags after the tests of `run` have each run every variant:
      settings that fail the reset guard, and the settings the test code
      assigns, carry over from one test to the next. */
  function FlagsAfter(values: map<string, bool>, fields: seq<SettingField>, variants: seq<seq<string>>,
                      run: seq<Test>): map<string, bool> {
    if run == [] then values
    else AfterVariants(FlagsAfter(values, fields, variants, run[..|run| - 1]), fields, variants, run[|run| - 1].benchmark.writes)
  }

  /** The CSV lines of the tests run in order. */
  function Rows(values: map<string, bool>, fields: seq<SettingField>, variants: seq<seq<string>>,
                tests: seq<Test>, elapsed: (Test, map<string, bool>) -> nat): (r: seq<string>)
    ensures |r| == |tests|
  {
    if tests == [] then []
    else
      var n := |tests| - 1;
      Rows(values, fields, variants, tests[..n], elapsed)
        + [Row(tests[n], Samples(FlagsAfter(values, fields, variants, tests[..n]), fields, variants, tests[n], elapsed))]
  }

  lemma {:induction false} FlagsAfterKeys(values: map<string, bool>, fields: seq<SettingField>, variants: seq<seq<string>>,
                                         run: seq<Test>)
    ensures FlagsAfter(values, fields, variants, run).Keys == values.Keys
  {
    if run != [] {
      var init := run[..|run| - 1];
      FlagsAfterKeys(values, fields, variants, init);
      AfterVariantsKeys(FlagsAfter(values, fields, variants, init), fields, variants, run[|run| - 1].benchmark.writes);
    }
  }

  /** Every row holds one sample per variant; when every field passes the
      reset guard, sample i of every test is taken with exactly variant i's
      settings off, whatever ran before. */
  lemma RowSamplesWhenAllReset(values: map<string, bool>, fields: seq<SettingField>, variants: seq<seq<string>>,
                               tests: seq<Test>, elapsed: (Test, map<string, bool>) -> nat, r: nat, i: nat)
    requires values.Keys == NameSet(fields)
    requires forall f :: f in fields ==> ResetToTrue(f)
    requires r < |tests| && i < |variants| && ',' !in tests[r].name
    ensures Split(Rows(values, fields, variants, tests, elapsed)[r], ',')
            == [TestName(tests[r])] + NatStrings(Samples(FlagsAfter(values, fields, variants, tests[..r]), fields, variants, tests[r], elapsed))
    ensures Samples(FlagsAfter(values, fields, variants, tests[..r]), fields, variants, tests[r], elapsed)[i]
            == elapsed(tests[r], map n | n in NameSet(fields) :: n !in variants[i])
  {
    RowAt(values, fields, variants, tests, elapsed, r);
    var flags := FlagsAfter(values, fields, variants, tests[..r]);
    RowFields(tests[r], Samples(flags, fields, variants, tests[r], elapsed));
    FlagsAfterKeys(values, fields, variants, tests[..r]);
    SamplesWhenAllReset(flags, fields, variants, tests[r], elapsed, i);
  }

  lemma {:induction false} RowAt(values: map<string, bool>, fields: seq<SettingField>, variants: seq<seq<string>>,
                                 tests: seq<Test>, elapsed: (Test, map<string, bool>) -> nat, r: nat)
    requires r < |tests|
    ensures Rows(values, fields, variants, tests, elapsed)[r]
            == Row(tests[r], Samples(FlagsAfter(values, fields, variants, tests[..r]), fields, variants, tests[r], elapsed))
  {
    var n := |tests| - 1;
    if r < n {
      RowAt(values, fields, variants, tests[..n], elapsed, r);
      PrefixOfPrefix(tests, n, r);
    }
  }

  /** The result file of a run: the header lines, then one line per test run. */
  function ResultsText(conf: Configuration, version: string, values: map<string, bool>, fields: seq<SettingField>,
                       variants: seq<seq<string>>, tests: seq<Test>, elapsed: (Test, map<string, bool>) -> nat): string {
    JoinLines(HeaderLines(conf, version, |variants|) + Rows(values, fields, variants, tests, elapsed))
  }

  /** The text of the results file when some test matches the filter. */
  function TestResults(conf: Configuration, version: string, values: map<string, bool>, fields: seq<SettingField>,
                       variants: seq<seq<string>>, tests: seq<TestEntry>, filter: string,
                       isMatch: (string, string) -> bool, elapsed: (Test, map<string, bool>) -> nat): Option<string> {
    var run := Selected(tests, filter, isMatch);
    if run == [] then None else Some(ResultsText(conf, version, values, fields, variants, run, elapsed))
  }

  lemma SelectedStep(tests: seq<TestEntry>, i: nat, filter: string, isMatch: (string, string) -> bool)
    requires i < |tests|
    ensures Selected(tests[..i + 1], filter, isMatch)
            == Selected(tests[..i], filter, isMatch) + (if isMatch(Lower(tests[i].key), filter) then [tests[i].test] else [])
  {
    assert tests[..i + 1][..i] == tests[..i];
  }

  /** Running one more test appends its line, sampled from the flags the
      earlier tests left behind. */
  lemma RowsStep(values: map<string, bool>, fields: seq<SettingField>, variants: seq<seq<string>>,
                 run: seq<Test>, t: Test, elapsed: (Test, map<string, bool>) -> nat)
    ensures Rows(values, fields, variants, run + [t], elapsed)
            == Rows(values, fields, variants, run, elapsed)
               + [Row(t, Samples(FlagsAfter(values, fields, variants, run), fields, variants, t, elapsed))]
    ensures FlagsAfter(values, fields, variants, run + [t])
            == AfterVariants(FlagsAfter(values, fields, variants, run), fields, variants, t.benchmark.writes)
  {
    AppendLast(run, t);
  }

  /** How the program ends: usage printed, an invalid setting reported, the
      filter rejected by the regular expression parser, the timeout rejected
      by CancelAfter, no test matched, or results written with the given
      text. */
  datatype Exit =
    | Usage
    | InvalidSettingOption(option: string)
    | FilterException
    | TimeoutException
    | NoTestsRun
    | ResultsWritten(text: string)

  /** How Benchmarks.Run ends. Regex.IsMatch throws ArgumentException for a
      filter that is not a valid pattern, at its first call, so only when
      there is a test to match, and nothing catches it. A timeout below -1
      throws from CancelAfter in the first matching test's first variant.
      Otherwise no test matched, or the results file was written. */
  function RunExit(conf: Configuration, version: string, values: map<string, bool>, fields: seq<SettingField>,
                   variants: seq<seq<string>>, tests: seq<TestEntry>, filter: string, timeout: int,
                   isMatch: (string, string) -> bool, validPattern: string -> bool,
                   elapsed: (Test, map<string, bool>) -> nat): (r: Exit)
    ensures r.FilterException? <==> tests != [] && !validPattern(filter)
    ensures r.TimeoutException? <==> (tests == [] || validPattern(filter)) && timeout < -1 && variants != []
                                      && exists k :: 0 <= k < |tests| && isMatch(Lower(tests[k].key), filter)
    ensures r.NoTestsRun? <==> (tests == [] || validPattern(filter))
                                && forall k :: 0 <= k < |tests| ==> !isMatch(Lower(tests[k].key), filter)
    ensures r.FilterException? || r.TimeoutException? || r.NoTestsRun? || r.ResultsWritten?
  {
    SelectedEmpty(tests, filter, isMatch);
    if tests != [] && !validPattern(filter) then FilterException
    else if timeout < -1 && variants != [] && Selected(tests, filter, isMatch) != [] then TimeoutException
    else
      match TestResults(conf, version, values, fields, variants, tests, filter, isMatch, elapsed)
      case None => NoTestsRun
      case Some(text) => ResultsWritten(text)
  }

  /** Benchmarks.Run (Benchmarks/Program.cs:183-201): runs every test whose
      lower-cased key matches the filter, in dictionary order, and writes the
      results file, or reports "No tests to run" when no key matched. The
      pattern is checked by the first match, before any test runs; a
      timeout below -1 stops the run in the first matching test, with the
      first variant's flags configured. */
  method RunTests(tests: seq<TestEntry>, filter: string, timeout: int, variants: seq<seq<string>>,
                  settings: Registry, isMatch: (string, string) -> bool, validPattern: string -> bool,
                  elapsed: (Test, map<string, bool>) -> nat, conf: Configuration, version: string)
    returns (exit: Exit)
    requires settings.Valid() && |variants| >= 1
    requires forall i, j :: 0 <= i < |variants| && 0 <= j < |variants[i]| ==> variants[i][j] in settings.values
    modifies settings
    ensures settings.Valid()
    ensures settings.values == if exit.FilterException? then old(settings.values)
                               else if exit.TimeoutException? then Configured(old(settings.values), settings.fields, variants[0])
                               else FlagsAfter(old(settings.values), settings.fields, variants, Selected(tests, filter, isMatch))
    ensures exit == RunExit(conf, version, old(settings.values), settings.fields, variants, tests, filter, timeout,
                            isMatch, validPattern, elapsed)
  {
    var benchmark := new Supervisor(timeout);
    if |tests| > 0 && !validPattern(filter) {
      // the first Regex.IsMatch call throws
      return FilterException;
    }
    var any, thrown := RunMatching(benchmark, tests, filter, variants, settings, isMatch, elapsed);
    if thrown {
      return TimeoutException;
    }
    if any {
      var text := benchmark.WriteResults(conf, version, |variants|);
      exit := ResultsWritten(text);
    } else {
      exit := NoTestsRun;
    }
  }

  /** The loop of Benchmarks.Run (Benchmarks/Program.cs:187-192): the
      supervisor runs each matching test in turn; the result tells whether
      any test matched, and whether the first one threw. */
  method RunMatching(benchmark: Supervisor, tests: seq<TestEntry>, filter: string, variants: seq<seq<string>>,
                     settings: Registry, isMatch: (string, string) -> bool,
                     elapsed: (Test, map<string, bool>) -> nat)
    returns (any: bool, thrown: bool)
    requires benchmark.Valid() && benchmark.rows == [] && settings.Valid()
    requires forall i, j :: 0 <= i < |variants| && 0 <= j < |variants[i]| ==> variants[i][j] in settings.values
    modifies benchmark, settings
    ensures benchmark.Valid() && settings.Valid()
    ensures thrown <==> benchmark.timeoutMs < -1 && variants != [] && Selected(tests, filter, isMatch) != []
    ensures thrown ==> settings.values == Configured(old(settings.values), settings.fields, variants[0]) && benchmark.rows == []
    ensures !thrown ==> var run := Selected(tests, filter, isMatch);
      && settings.values == FlagsAfter(old(settings.values), settings.fields, variants, run)
      && benchmark.rows == Rows(old(settings.values), settings.fields, variants, run, elapsed)
      && any == (run != [])
  {
    any, thrown := false, false;
    ghost var start := settings.values;
    for i := 0 to |tests|
      invariant benchmark.Valid() && settings.Valid() && settings.values.Keys == start.Keys
      invariant Visited(benchmark.rows, settings.values, any, start, settings.fields, variants, tests, i, filter, isMatch, elapsed)
      invariant benchmark.timeoutMs < -1 && variants != [] ==> !any
    {
      any, thrown := RunEntry(benchmark, tests, i, filter, variants, settings, isMatch, elapsed, start, any);
      if thrown {
        assert tests[i].test in Selected(tests, filter, isMatch);
        return;
      }
    }
    assert tests[..|tests|] == tests;
  }

  /** What the loop has done after the first i entries: the flags and the
      lines of the matching tests among them, and whether there was one. */
  ghost predicate Visited(rows: seq<string>, values: map<string, bool>, any: bool, start: map<string, bool>,
                          fields: seq<SettingField>, variants: seq<seq<string>>, tests: seq<TestEntry>, i: nat,
                          filter: string, isMatch: (string, string) -> bool, elapsed: (Test, map<string, bool>) -> nat)
    requires i <= |tests|
  {
    var run := Selected(tests[..i], filter, isMatch);
    && values == FlagsAfter(start, fields, variants, run)
    && rows == Rows(start, fields, variants, run, elapsed)
    && any == (run != [])
  }

  /** One pass of the loop: the supervisor runs the entry's test when its
      lower-cased key matches the filter (Benchmarks/Program.cs:188-191).
      Only the first test run can throw, so no test has run before. */
  method RunEntry(benchmark: Supervisor, tests: seq<TestEntry>, i: nat, filter: string, variants: seq<seq<string>>,
                  settings: Registry, isMatch: (string, string) -> bool, elapsed: (Test, map<string, bool>) -> nat,
                  ghost start: map<string, bool>, any: bool)
    returns (any': bool, thrown: bool)
    requires i < |tests|
    requires benchmark.Valid() && settings.Valid() && settings.values.Keys == start.Keys
    requires forall i, j :: 0 <= i < |variants| && 0 <= j < |variants[i]| ==> variants[i][j] in start
    requires Visited(benchmark.rows, settings.values, any, start, settings.fields, variants, tests, i, filter, isMatch, elapsed)
    requires benchmark.timeoutMs < -1 && variants != [] ==> !any
    modifies benchmark, settings
    ensures benchmark.Valid() && settings.Valid() && settings.values.Keys == start.Keys
    ensures thrown <==> benchmark.timeoutMs < -1 && variants != [] && isMatch(Lower(tests[i].key), filter)
    ensures thrown ==> settings.values == Configured(start, settings.fields, variants[0]) && benchmark.rows == []
    ensures !thrown ==> Visited(benchmark.rows, settings.values, any', start, settings.fields, variants, tests, i + 1,
                                filter, isMatch, elapsed)
    ensures !thrown ==> (benchmark.timeoutMs < -1 && variants != [] ==> !any')
  {
    ghost var run := Selected(tests[..i], filter, isMatch);
    SelectedStep(tests, i, filter, isMatch);
    var kv := tests[i];
    if isMatch(Lower(kv.key), filter) {
      assert Selected(tests[..i + 1], filter, isMatch) == run + [kv.test];
      thrown := RunNext(benchmark, kv.test, variants, settings, elapsed, start, run);
      any' := true;
    } else {
      AppendEmpty(run);
      assert Selected(tests[..i + 1], filter, isMatch) == run;
      any', thrown := any, false;
    }
  }

  /** One matching test of the loop: the supervisor runs it after the tests
      run so far, or throws in its first variant. */
  method RunNext(benchmark: Supervisor, t: Test, variants: seq<seq<string>>, settings: Registry,
                 elapsed: (Test, map<string, bool>) -> nat, ghost start: map<string, bool>, ghost run: seq<Test>)
    returns (thrown: bool)
    requires benchmark.Valid() && settings.Valid() && settings.values.Keys == start.Keys
    requires forall i, j :: 0 <= i < |variants| && 0 <= j < |variants[i]| ==> variants[i][j] in start
    requires settings.values == FlagsAfter(start, settings.fields, variants, run)
    requires benchmark.rows == Rows(start, settings.fields, variants, run, elapsed)
    modifies benchmark, settings
    ensures benchmark.Valid() && settings.Valid() && settings.values.Keys == start.Keys
    ensures thrown <==> benchmark.timeoutMs < -1 && variants != []
    ensures thrown ==> settings.values == Configured(FlagsAfter(start, settings.fields, variants, run), settings.fields, variants[0])
    ensures thrown ==> benchmark.rows == Rows(start, settings.fields, variants, run, elapsed)
    ensures !thrown ==> settings.values == FlagsAfter(start, settings.fields, variants, run + [t])
    ensures !thrown ==> benchmark.rows == Rows(start, settings.fields, variants, run + [t], elapsed)
  {
    RowsStep(start, settings.fields, variants, run, t, elapsed);
    thrown := benchmark.Run(t, variants, settings, elapsed);
    AfterVariantsKeys(FlagsAfter(start, settings.fields, variants, run), settings.fields, variants, t.benchmark.writes);
  }

  /** Read back line by line, the results file holds the three header lines
      and then each test's line, in the order the tests ran. */
  lemma ResultsFileRows(conf: Configuration, version: string, values: map<string, bool>, fields: seq<SettingField>,
                        variants: seq<seq<string>>, tests: seq<Test>, elapsed: (Test, map<string, bool>) -> nat)
    requires NoLineBreak(version)
    requires forall k :: 0 <= k < |tests| ==> NoLineBreak(tests[k].name)
    ensures var lines := ReadLines(ResultsText(conf, version, values, fields, variants, tests, elapsed));
      |lines| == 3 + |tests| && lines[..3] == HeaderLines(conf, version, |variants|)
      && lines[3..] == Rows(values, fields, variants, tests, elapsed)
  {
    var rows := Rows(values, fields, variants, tests, elapsed);
    forall k | 0 <= k < |rows| ensures NoLineBreak(rows[k]) {
      RowAt(values, fields, variants, tests, elapsed, k);
      RowNoLineBreak(tests[k], Samples(FlagsAfter(values, fields, variants, tests[..k]), fields, variants, tests[k], elapsed));
    }
    ResultsFileLines(conf, version, |variants|, rows);
  }

  // ---------------------------------------------------------------------
  // The program
  // ---------------------------------------------------------------------

  /** What the program does, as a function of its inputs: parsing decides
      usage and an invalid setting; a parsed filter that is no valid pattern
      throws when there is a test; a timeout below -1 throws when some test
      matches; no test runs exactly when no lower-cased key matches the
      filter. */
  function ExpectedExit(args: seq<string>, fields: seq<SettingField>, values: map<string, bool>, tests: seq<TestEntry>,
                        isMatch: (string, string) -> bool, validPattern: string -> bool,
                        elapsed: (Test, map<string, bool>) -> nat, conf: Configuration, version: string): (r: Exit)
    ensures var p := ParseOptions(args, Names(fields));
      && (r.Usage? <==> p.ShowUsage?)
      && (r.InvalidSettingOption? <==> p.InvalidSetting?)
      && (r.InvalidSettingOption? ==> r.option == p.option)
      && (r.FilterException? <==> p.Parsed? && tests != [] && !validPattern(p.options.filter))
      && (r.TimeoutException? <==> p.Parsed? && (tests == [] || validPattern(p.options.filter)) && p.options.timeout < -1
                                    && exists k :: 0 <= k < |tests| && isMatch(Lower(tests[k].key), p.options.filter))
      && (r.NoTestsRun? <==> p.Parsed? && (tests == [] || validPattern(p.options.filter))
                              && forall k :: 0 <= k < |tests| ==> !isMatch(Lower(tests[k].key), p.options.filter))
  {
    match ParseOptions(args, Names(fields))
    case ShowUsage => Usage
    case InvalidSetting(p) => InvalidSettingOption(p)
    case Parsed(o) =>
      RunExit(conf, version, values, fields, WithDefault(o.variants), tests, o.filter, o.timeout, isMatch, validPattern, elapsed)
  }

  /** Every setting name of the variants, the default one included, has a
      flag in the registry. */
  lemma VariantsRegistered(args: seq<string>, fields: seq<SettingField>, values: map<string, bool>)
    requires values.Keys == NameSet(fields)
    requires ParseOptions(args, Names(fields)).Parsed?
    ensures var vs := WithDefault(ParseOptions(args, Names(fields)).options.variants);
      forall i, j :: 0 <= i < |vs| && 0 <= j < |vs[i]| ==> vs[i][j] in values
  {
    var names := Names(fields);
    VariantsOfArguments(args, names);
    var vs := WithDefault(ParseOptions(args, names).options.variants);
    forall i, j | 0 <= i < |vs| && 0 <= j < |vs[i]| ensures vs[i][j] in values {
      var k :| 0 <= k < |names| && names[k] == vs[i][j];
      assert fields[k] in fields;
    }
  }

  /** Main (Benchmarks/Program.cs:203-283): parses the arguments, adds the
      default variant, and runs the tests against the settings registry. */
  method RunProgram(args: seq<string>, settings: Registry, tests: seq<TestEntry>,
                    isMatch: (string, string) -> bool, validPattern: string -> bool,
                    elapsed: (Test, map<string, bool>) -> nat, conf: Configuration, version: string)
    returns (exit: Exit)
    requires settings.Valid()
    modifies settings
    ensures settings.Valid()
    ensures exit == ExpectedExit(args, settings.fields, old(settings.values), tests, isMatch, validPattern, elapsed, conf, version)
    ensures exit.Usage? || exit.InvalidSettingOption? || exit.FilterException? ==> settings.values == old(settings.values)
  {
    // Get list of all valid settings names
    var settingsNames := Names(settings.fields);
    var parsed := ParseArguments(args, settingsNames);
    match parsed {
      case ShowUsage => return Usage;
      case InvalidSetting(p) => return InvalidSettingOption(p);
      case Parsed(o) =>
        var variants := o.variants;
        if |variants| == 0 {
          variants := variants + [[]];
        }
        assert variants == WithDefault(o.variants);
        VariantsRegistered(args, settings.fields, settings.values);
        exit := RunTests(tests, o.filter, o.timeout, variants, settings, isMatch, validPattern, elapsed, conf, version);
    }
  }
}
