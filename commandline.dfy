/** The one piece of argument handling the three programs share: each
    argument is read as `name=value` (Benchmarks/Program.cs, MultiBuild and
    Profiler alike). */
module CommandLine {
  import opened Text

  datatype Argument = Argument(name: string, value: string)

  /** Appends "=" when the argument has none, takes the text before the first
      "=" lower-cased and trimmed as the name, and takes as the value what
      follows position |name| + 1 of the (possibly extended) argument. The
      value is cut by the length of the TRIMMED name, so white space around
      the name shifts it. */
  function SplitArgument(a: string): (r: Argument)
    ensures '=' !in r.name && Unpadded(r.name)
    ensures |r.name| + |r.value| <= |a|
  {
    var arg := if '=' in a then a else a + "=";
    var prefix := NamePart(a);
    var name := Trim(Lower(prefix));
    assert '=' !in name by {
      forall k | 0 <= k < |prefix| ensures Lower(prefix)[k] != '=' {
        LowerCharKeeps(prefix[k]);
      }
      TrimKeeps(Lower(prefix), '=');
    }
    Argument(name, arg[|name| + 1..])
  }

  /** The text before the first "=", or the whole argument when there is none. */
  function NamePart(a: string): (p: string)
    ensures |p| <= |a| && p == a[..|p|] && '=' !in p
    ensures '=' in a <==> |p| < |a|
    ensures |p| < |a| ==> a[|p|] == '='
  {
    var eq := IndexOf(a, '=');
    if eq == -1 then a else a[..eq]
  }

  /** The text after the first "=", or "" when there is none. */
  function ValuePart(a: string): string {
    var p := NamePart(a);
    if |p| < |a| then a[|p| + 1..] else ""
  }

  /** The name part of `name=rest` is the name, when it holds no "=". */
  lemma NamePartOf(name: string, rest: string)
    requires '=' !in name
    ensures NamePart(name + "=" + rest) == name
  {
    IndexOfAfter(name, rest, '=');
    assert name + "=" + rest == name + ['='] + rest;
    assert (name + ['='] + rest)[..|name|] == name;
  }

  lemma LowerUnpadded(s: string)
    requires Unpadded(s)
    ensures Unpadded(Lower(s)) && |Lower(s)| == |s|
  {
    if s != [] {
      LowerCharKeeps(s[0]);
      LowerCharKeeps(s[|s| - 1]);
    }
  }

  /** When the name carries no white space around it, the argument splits
      exactly at its first "=": the name is the lower-cased text before it and
      the value everything after it; an argument without "=" has an empty
      value. */
  lemma SplitUnpadded(a: string)
    requires Unpadded(NamePart(a))
    ensures SplitArgument(a) == Argument(Lower(NamePart(a)), ValuePart(a))
  {
    var p := NamePart(a);
    LowerUnpadded(p);
    TrimUnpadded(Lower(p));
    var arg := if '=' in a then a else a + "=";
    assert |Trim(Lower(p))| == |p|;
    assert SplitArgument(a) == Argument(Lower(p), arg[|p| + 1..]);
    if '=' !in a {
      assert |p| == |a|;
      assert arg[|a| + 1..] == "";
    }
  }

  /** Reading back an argument written as `name=value`: the name comes back
      lower-cased, the value unchanged. */
  lemma SplitJoinedArgument(name: string, value: string)
    requires '=' !in name && Unpadded(name)
    ensures SplitArgument(name + "=" + value) == Argument(Lower(name), value)
  {
    var a := name + "=" + value;
    NamePartOf(name, value);
    SplitUnpadded(a);
    assert a[|name| + 1..] == value;
  }

  /** One white-space character before unpadded text is trimmed away. */
  lemma TrimLeadingWhite(c: char, s: string)
    requires IsWhiteSpace(c) && s != [] && Unpadded(s)
    ensures Trim([c] + s) == s
  {
    assert ([c] + s)[1..] == s;
    assert DropLeading([c] + s, IsWhiteSpace) == DropLeading(s, IsWhiteSpace) == s;
    assert DropTrailing(s, IsWhiteSpace) == s;
  }

  /** An argument that holds "=" splits after its trimmed, lower-cased name part. */
  lemma SplitAtNamePart(a: string, p: string)
    requires '=' in a && NamePart(a) == p
    ensures SplitArgument(a) == Argument(Trim(Lower(p)), a[|Trim(Lower(p))| + 1..])
  {
  }

  lemma LowerCons(c: char, s: string)
    ensures Lower([c] + s) == [LowerChar(c)] + Lower(s)
  {
    assert forall k :: 1 <= k <= |s| ==> ([c] + s)[k] == s[k - 1];
  }

  /** An argument whose name part is one white-space character and then an
      unpadded name keeps only the name, but cuts the value one character early. */
  lemma SplitPaddedName(a: string, c: char, name: string)
    requires '=' in a && NamePart(a) == [c] + name
    requires IsWhiteSpace(c) && name != [] && Unpadded(name)
    ensures SplitArgument(a) == Argument(Lower(name), a[|name| + 1..])
  {
    assert LowerChar(c) == c;
    LowerUnpadded(name);
    LowerCons(c, name);
    TrimLeadingWhite(c, Lower(name));
    SplitAtNamePart(a, [c] + name);
  }

  /** White space before the name is trimmed away but still counted when the
      value is cut: the value then starts at the "=" itself. */
  lemma SplitLeadingSpace(c: char, name: string, value: string)
    requires IsWhiteSpace(c) && name != [] && Unpadded(name) && '=' !in name
    ensures SplitArgument([c] + name + "=" + value) == Argument(Lower(name), "=" + value)
  {
    var prefix := [c] + name;
    NamePartOf(prefix, value);
    SplitPaddedName(prefix + "=" + value, c, name);
    AfterPrefix(prefix, "=", value);
  }

  /** The text after a prefix of a concatenation. */
  lemma AfterPrefix(p: string, s: string, t: string)
    ensures (p + s + t)[|p|..] == s + t
  {
    assert p + s + t == p + (s + t);
  }
}
