/** The engine's feature flags (Brimstone.Settings) as the benchmark program
    sees them through reflection: the public static fields in declaration
    order, each with its name and the FullName of its type, and the current
    value of each as a flag. */
module BenchmarkSettings {
  import opened Text

  datatype SettingField = SettingField(name: string, typeFullName: string)

  /** The guard of the reset loop (Benchmarks/Program.cs:38): only a field
      whose type reports the FullName "Boolean" is set back to true. A bool
      field reports "System.Boolean", so no bool setting passes it. */
  predicate ResetToTrue(f: SettingField) {
    f.typeFullName == "Boolean"
  }

  /** The setting names in declaration order (Benchmarks/Program.cs:210). */
  function Names(fields: seq<SettingField>): (r: seq<string>)
    ensures |r| == |fields|
    ensures forall k :: 0 <= k < |fields| ==> r[k] == fields[k].name
  {
    seq(|fields|, k requires 0 <= k < |fields| => fields[k].name)
  }

  function NameSet(fields: seq<SettingField>): set<string> {
    set f | f in fields :: f.name
  }

  /** A setting that the reset loop sets to true. */
  predicate Resettable(fields: seq<SettingField>, n: string) {
    exists f :: f in fields && f.name == n && ResetToTrue(f)
  }

  /** The flags after one variant is configured (Benchmarks/Program.cs:37-43):
      a setting the variant names is false; any other setting is true if the
      reset loop reaches it and keeps its previous value if not. */
  function Configured(values: map<string, bool>, fields: seq<SettingField>, variant: seq<string>): map<string, bool> {
    map n | n in values :: if n in variant then false else if Resettable(fields, n) then true else values[n]
  }

  /** The flags after a test's benchmark code has run: the code assigns
      some settings itself (Settings.ParallelClone at
      Benchmarks/BenchmarkDefinitions.cs:68, 73, 78 and 83), `writes` maps
      each of them to the value it assigns, and every other flag is kept. */
  function Written(values: map<string, bool>, writes: map<string, bool>): (r: map<string, bool>)
    ensures r.Keys == values.Keys
    ensures forall n :: n in values ==> r[n] == if n in writes then writes[n] else values[n]
  {
    map n | n in values :: if n in writes then writes[n] else values[n]
  }

  /** The flags after the variants are run one after another by a test whose
      code assigns `writes`: each run configures its variant, then the test
      code assigns its settings. */
  function AfterVariants(values: map<string, bool>, fields: seq<SettingField>, variants: seq<seq<string>>,
                         writes: map<string, bool>): map<string, bool> {
    if variants == [] then values
    else Written(Configured(AfterVariants(values, fields, variants[..|variants| - 1], writes), fields, variants[|variants| - 1]), writes)
  }

  /** Running variants never adds or removes a setting. */
  lemma {:induction false} AfterVariantsKeys(values: map<string, bool>, fields: seq<SettingField>, variants: seq<seq<string>>,
                                             writes: map<string, bool>)
    ensures AfterVariants(values, fields, variants, writes).Keys == values.Keys
  {
    if variants != [] {
      AfterVariantsKeys(values, fields, variants[..|variants| - 1], writes);
    }
  }

  /** When every field passes the reset guard, configuring a variant forgets
      what earlier variants did: the flags are exactly "off iff named". */
  lemma ConfiguredWhenAllReset(values: map<string, bool>, fields: seq<SettingField>, variant: seq<string>)
    requires values.Keys == NameSet(fields)
    requires forall f :: f in fields ==> ResetToTrue(f)
    ensures Configured(values, fields, variant) == map n | n in NameSet(fields) :: n !in variant
  {
    forall n | n in values
      ensures Resettable(fields, n)
    {
      var f :| f in fields && f.name == n;
      assert ResetToTrue(f);
    }
  }

  /** When a field fails the reset guard, a flag turned off by one variant
      stays off in the next variant even though that variant does not name it. */
  lemma DisabledFlagPersists(values: map<string, bool>, fields: seq<SettingField>, first: seq<string>, second: seq<string>, f: SettingField)
    requires f in fields && f.name in values
    requires forall g :: g in fields && g.name == f.name ==> !ResetToTrue(g)
    requires f.name in first && f.name !in second
    ensures Configured(Configured(values, fields, first), fields, second)[f.name] == false
  {
  }

  /** When no field passes the reset guard, as for the bool settings, a
      flag the test code does not assign is on after a run of variants
      exactly when it was on before and no variant named it; a flag the test
      code assigns holds the assigned value after any run. */
  lemma {:induction false} NoneResetFlags(values: map<string, bool>, fields: seq<SettingField>, variants: seq<seq<string>>,
                                          writes: map<string, bool>, n: string)
    requires n in values
    requires forall f :: f in fields ==> !ResetToTrue(f)
    ensures n in AfterVariants(values, fields, variants, writes)
    ensures AfterVariants(values, fields, variants, writes)[n]
            == if n in writes && variants != [] then writes[n]
               else values[n] && forall i :: 0 <= i < |variants| ==> n !in variants[i]
  {
    AfterVariantsKeys(values, fields, variants, writes);
    if variants != [] {
      var init := variants[..|variants| - 1];
      NoneResetFlags(values, fields, init, writes, n);
      assert !Resettable(fields, n);
      AfterVariantsKeys(values, fields, init, writes);
      forall i | 0 <= i < |init| ensures init[i] == variants[i] { }
    }
  }

  /** The settings registry: one flag per setting field, updated in place. */
  class Registry {
    const fields: seq<SettingField>
    var values: map<string, bool>

    ghost predicate Valid()
      reads this
    {
      values.Keys == NameSet(fields)
    }

    constructor (fields: seq<SettingField>, initial: map<string, bool>)
      requires initial.Keys == NameSet(fields)
      ensures Valid() && this.fields == fields && values == initial
    {
      this.fields := fields;
      values := initial;
    }

    /** Configures one variant (Benchmarks/Program.cs:36-43): the reset loop
        over every field, then the disable loop over the variant's names. */
    method Configure(variant: seq<string>)
      requires Valid()
      requires forall j :: 0 <= j < |variant| ==> variant[j] in values
      modifies this
      ensures Valid()
      ensures values == Configured(old(values), fields, variant)
    {
      // Enable all settings that pass the guard
      ResetAll();
      // Disable the specified options
      DisableAll(variant);
    }

    /** The reset loop (Benchmarks/Program.cs:36-39): every field that passes
        the guard is set to true. */
    method ResetAll()
      requires Valid()
      modifies this
      ensures values.Keys == old(values).Keys
      ensures forall n :: n in values ==> values[n] == if Resettable(fields, n) then true else old(values)[n]
    {
      for k := 0 to |fields|
        invariant values.Keys == old(values).Keys
        invariant forall n :: n in values ==>
          values[n] == if Resettable(fields[..k], n) then true else old(values)[n]
      {
        SliceStep(fields, k);
        assert fields[k] in fields;
        if ResetToTrue(fields[k]) {
          values := values[fields[k].name := true];
        }
      }
      assert fields[..|fields|] == fields;
    }

    /** The assignments a test's benchmark code makes to the settings
        (Benchmarks/BenchmarkDefinitions.cs:68, 73, 78 and 83). */
    method Assign(writes: map<string, bool>)
      requires Valid()
      modifies this
      ensures Valid()
      ensures values == Written(old(values), writes)
    {
      values := Written(values, writes);
    }

    /** The disable loop (Benchmarks/Program.cs:41-43): every name of the
        variant is set to false. */
    method DisableAll(variant: seq<string>)
      requires forall j :: 0 <= j < |variant| ==> variant[j] in values
      modifies this
      ensures values.Keys == old(values).Keys
      ensures forall n :: n in values ==> values[n] == if n in variant then false else old(values)[n]
    {
      for j := 0 to |variant|
        invariant values.Keys == old(values).Keys
        invariant forall n :: n in values ==> values[n] == if n in variant[..j] then false else old(values)[n]
      {
        SliceStep(variant, j);
        values := values[variant[j] := false];
      }
      assert variant[..|variant|] == variant;
    }
  }
}
