/** The parts of .NET's string and file API the three programs rely on, as
    functions on `string` (a sequence of `char`): ToLower, Trim, IndexOf,
    Split, int.ToString / int.TryParse, and the line structure that
    File.WriteAllText / File.ReadAllLines put on a text file. */
module Text {
  import opened Wrappers

  // ---------------------------------------------------------------------
  // Sequences: stated for any element type, so that proofs about lists of
  // strings need not look inside the strings
  // ---------------------------------------------------------------------

  lemma AppendAssoc<T>(a: seq<T>, b: seq<T>, c: seq<T>)
    ensures a + b + c == a + (b + c)
  {
  }

  lemma SliceStep<T>(s: seq<T>, j: nat)
    requires j < |s|
    ensures s[..j + 1] == s[..j] + [s[j]]
  {
  }

  lemma AppendLast<T>(s: seq<T>, x: T)
    ensures (s + [x])[..|s|] == s && (s + [x])[|s|] == x
  {
  }

  lemma AppendEmpty<T>(s: seq<T>)
    ensures s + [] == s
  {
  }

  lemma PrefixOfPrefix<T>(s: seq<T>, n: nat, r: nat)
    requires r <= n <= |s|
    ensures s[..n][..r] == s[..r]
  {
  }

  lemma InitLast<T>(s: seq<T>)
    requires s != []
    ensures s[..|s| - 1] + [s[|s| - 1]] == s
  {
  }

  lemma Singleton<T>(s: seq<T>)
    requires |s| == 1
    ensures s == [s[0]]
  {
  }

  lemma ConsTail<T>(s: seq<T>)
    requires s != []
    ensures [s[0]] + s[1..] == s
  {
  }

  lemma ConsAppend<T>(s: seq<T>, x: T)
    requires s != []
    ensures [s[0]] + (s[1..] + [x]) == s + [x]
  {
    assert [s[0]] + s[1..] == s;
  }

  // ---------------------------------------------------------------------
  // Characters
  // ---------------------------------------------------------------------

  /** The characters String.Trim removes that this model knows of: TAB to CR,
      SPACE, NEXT LINE and NO-BREAK SPACE. */
  predicate IsWhiteSpace(c: char) {
    c == ' ' || ('\t' <= c <= '\r') || c == '\U{85}' || c == '\U{A0}'
  }

  /** The characters int.TryParse skips around a number (NumberStyles.Integer). */
  predicate IsNumberWhite(c: char) {
    c == ' ' || ('\t' <= c <= '\r')
  }

  /** The characters that end a line for File.ReadAllLines. */
  predicate IsLineBreak(c: char) {
    c == '\r' || c == '\n'
  }

  predicate IsDigit(c: char) {
    '0' <= c <= '9'
  }

  predicate AllDigits(s: string) {
    forall k :: 0 <= k < |s| ==> IsDigit(s[k])
  }

  predicate NoLineBreak(s: string) {
    forall k :: 0 <= k < |s| ==> !IsLineBreak(s[k])
  }

  function LowerChar(c: char): char {
    if 'A' <= c <= 'Z' then (c as int - 'A' as int + 'a' as int) as char else c
  }

  /** String.ToLower, on the ASCII letters. */
  function Lower(s: string): (r: string)
    ensures |r| == |s|
    ensures forall k :: 0 <= k < |s| ==> r[k] == LowerChar(s[k])
  {
    if s == [] then [] else [LowerChar(s[0])] + Lower(s[1..])
  }

  /** Lower-casing neither creates nor removes white space, line breaks or
      the separators the programs split on. */
  lemma LowerCharKeeps(c: char)
    ensures IsWhiteSpace(LowerChar(c)) == IsWhiteSpace(c)
    ensures LowerChar(c) == '=' <==> c == '='
    ensures LowerChar(c) == ',' <==> c == ','
    ensures IsLineBreak(LowerChar(c)) == IsLineBreak(c)
  {
  }

  // ---------------------------------------------------------------------
  // Trim
  // ---------------------------------------------------------------------

  function DropLeading(s: string, white: char -> bool): (r: string)
    ensures |r| <= |s| && r == s[|s| - |r|..]
    ensures r != [] ==> !white(r[0])
    ensures forall k :: 0 <= k < |s| - |r| ==> white(s[k])
    decreases |s|
  {
    if |s| > 0 && white(s[0]) then DropLeading(s[1..], white) else s
  }

  function DropTrailing(s: string, white: char -> bool): (r: string)
    ensures |r| <= |s| && r == s[..|r|]
    ensures r != [] ==> !white(r[|r| - 1])
    ensures forall k :: |r| <= k < |s| ==> white(s[k])
    decreases |s|
  {
    if |s| > 0 && white(s[|s| - 1]) then DropTrailing(s[..|s| - 1], white) else s
  }

  /** String.Trim: the text without its leading and trailing white space.
      The result is the slice of the input between a white-space prefix and
      a white-space suffix, and it neither starts nor ends with white space,
      so that the prefix and the suffix are the longest ones. */
  function Trim(s: string): (r: string)
    ensures |r| <= |s|
    ensures r != [] ==> !IsWhiteSpace(r[0]) && !IsWhiteSpace(r[|r| - 1])
    ensures exists i :: TrimmedAt(s, r, i)
  {
    var t := DropLeading(s, IsWhiteSpace);
    var r := DropTrailing(t, IsWhiteSpace);
    assert r != [] ==> r[0] == t[0];
    DroppedBothEnds(s, |s| - |t|, t, r);
    r
  }

  /** A slice of a suffix of s, with white space before the suffix and after
      the slice, is s trimmed at the start of the suffix. */
  lemma DroppedBothEnds(s: string, i: nat, t: string, r: string)
    requires i <= |s| && t == s[i..] && forall k :: 0 <= k < i ==> IsWhiteSpace(s[k])
    requires |r| <= |t| && r == t[..|r|] && forall k :: |r| <= k < |t| ==> IsWhiteSpace(t[k])
    ensures TrimmedAt(s, r, i)
  {
    SliceOfSuffix(s, i, |r|);
    forall k | i + |r| <= k < |s| ensures IsWhiteSpace(s[k]) {
      assert s[k] == t[k - i];
    }
  }

  lemma SliceOfSuffix<T>(s: seq<T>, i: nat, n: nat)
    requires i + n <= |s|
    ensures s[i..][..n] == s[i..i + n]
  {
  }

  /** r is the slice of s from i on, with only white space before and after it. */
  predicate TrimmedAt(s: string, r: string, i: int) {
    && 0 <= i <= |s| - |r| && r == s[i..i + |r|]
    && (forall k :: 0 <= k < i ==> IsWhiteSpace(s[k]))
    && (forall k :: i + |r| <= k < |s| ==> IsWhiteSpace(s[k]))
  }

  /** Trimming adds no character: what the text lacks, the trimmed text lacks. */
  lemma TrimKeeps(s: string, c: char)
    requires c !in s
    ensures c !in Trim(s)
  {
    var t := DropLeading(s, IsWhiteSpace);
    var r := DropTrailing(t, IsWhiteSpace);
    assert forall k :: 0 <= k < |r| ==> r[k] == s[|s| - |t| + k];
  }

  /** Text that neither starts nor ends with white space. */
  predicate Unpadded(s: string) {
    s == [] || (!IsWhiteSpace(s[0]) && !IsWhiteSpace(s[|s| - 1]))
  }

  lemma TrimUnpadded(s: string)
    requires Unpadded(s)
    ensures Trim(s) == s
  {
  }

  // ---------------------------------------------------------------------
  // IndexOf and Split
  // ---------------------------------------------------------------------

  /** String.IndexOf for one character: the first position of c, or -1. */
  function IndexOf(s: string, c: char): (i: int)
    ensures i == -1 <==> c !in s
    ensures i != -1 ==> 0 <= i < |s| && s[i] == c && c !in s[..i]
  {
    if |s| == 0 then -1
    else if s[0] == c then 0
    else
      var j := IndexOf(s[1..], c);
      if j == -1 then -1
      else
        assert s[..j + 1] == [s[0]] + s[1..][..j];
        j + 1
  }

  /** The first separator after a separator-free prefix is the one right after it. */
  lemma IndexOfAfter(a: string, b: string, c: char)
    requires c !in a
    ensures IndexOf(a + [c] + b, c) == |a|
  {
    var s := a + [c] + b;
    assert s[|a|] == c;
    assert s[..|a|] == a;
  }

  /** String.Split with one separator character and no options: the pieces
      between separators, empty pieces kept. */
  function Split(s: string, sep: char): (r: seq<string>)
    ensures |r| >= 1
    ensures NoneContains(r, sep)
    ensures sep in s <==> |r| >= 2
    decreases |s|
  {
    var i := IndexOf(s, sep);
    if i == -1 then [s]
    else
      var head := s[..i];
      var rest := Split(s[i + 1..], sep);
      NoneContainsCons(head, rest, sep);
      [head] + rest
  }

  lemma NoneContainsCons(head: string, rest: seq<string>, sep: char)
    requires sep !in head && NoneContains(rest, sep)
    ensures NoneContains([head] + rest, sep)
  {
    forall k | 0 <= k < |rest| + 1 ensures sep !in ([head] + rest)[k] {
      if k > 0 {
        assert ([head] + rest)[k] == rest[k - 1];
      }
    }
  }

  /** Splitting at a first separator: the text before it, then the pieces of the rest. */
  lemma SplitAt(a: string, b: string, sep: char)
    requires sep !in a
    ensures Split(a + [sep] + b, sep) == [a] + Split(b, sep)
  {
    var s := a + [sep] + b;
    IndexOfAfter(a, b, sep);
    assert s[..|a|] == a;
    assert s[|a| + 1..] == b;
  }

  /** StringSplitOptions.RemoveEmptyEntries: the pieces that are not empty. */
  function NonEmpty(pieces: seq<string>): (r: seq<string>)
    ensures forall k :: 0 <= k < |r| ==> r[k] != [] && r[k] in pieces
    ensures forall p :: p in r <==> p in pieces && p != []
  {
    if pieces == [] then []
    else (if pieces[0] == [] then [] else [pieces[0]]) + NonEmpty(pieces[1..])
  }

  /** `sep + s` for each s, in order: the part of a CSV line after its first field. */
  function Prefixed(ss: seq<string>, sep: char): string {
    if ss == [] then "" else [sep] + ss[0] + Prefixed(ss[1..], sep)
  }

  /** `s + sep` for each s, in order: a line as the programs build it, before
      they cut off the separator at its end. */
  function Trailing(ss: seq<string>, sep: char): string {
    if ss == [] then "" else ss[0] + [sep] + Trailing(ss[1..], sep)
  }

  predicate NoneContains(ss: seq<string>, c: char) {
    forall k :: 0 <= k < |ss| ==> c !in ss[k]
  }

  lemma {:induction false} PrefixedAppend(ss: seq<string>, s: string, sep: char)
    ensures Prefixed(ss + [s], sep) == Prefixed(ss, sep) + [sep] + s
  {
    if ss != [] {
      assert (ss + [s])[1..] == ss[1..] + [s];
      PrefixedAppend(ss[1..], s, sep);
    }
  }

  lemma {:induction false} TrailingAppend(ss: seq<string>, s: string, sep: char)
    ensures Trailing(ss + [s], sep) == Trailing(ss, sep) + s + [sep]
  {
    if ss != [] {
      assert (ss + [s])[1..] == ss[1..] + [s];
      TrailingAppend(ss[1..], s, sep);
    }
  }

  lemma {:induction false} TrailingShift(ss: seq<string>, sep: char)
    ensures [sep] + Trailing(ss, sep) == Prefixed(ss, sep) + [sep]
  {
    if ss != [] {
      TrailingShift(ss[1..], sep);
      calc {
        [sep] + Trailing(ss, sep);
        [sep] + ss[0] + ([sep] + Trailing(ss[1..], sep));
        [sep] + ss[0] + (Prefixed(ss[1..], sep) + [sep]);
        Prefixed(ss, sep) + [sep];
      }
    }
  }

  /** Fields without line breaks, joined by a separator that is not one,
      make a line without line breaks. */
  lemma {:induction false} PrefixedNoLineBreak(ss: seq<string>, sep: char)
    requires !IsLineBreak(sep) && forall k :: 0 <= k < |ss| ==> NoLineBreak(ss[k])
    ensures NoLineBreak(Prefixed(ss, sep))
  {
    if ss != [] {
      PrefixedNoLineBreak(ss[1..], sep);
    }
  }

  /** Cutting the last character off `head + sep + s1 + sep + ... + sn + sep`
      leaves `head + sep + s1 + ... + sep + sn`: the step both programs use to
      finish a CSV line. */
  lemma CutLastSeparator(head: string, ss: seq<string>, sep: char)
    ensures var line := head + [sep] + Trailing(ss, sep);
            |line| >= 1 && line[..|line| - 1] == head + Prefixed(ss, sep)
  {
    TrailingShift(ss, sep);
    var line := head + [sep] + Trailing(ss, sep);
    assert line == head + ([sep] + Trailing(ss, sep));
    assert line == head + Prefixed(ss, sep) + [sep];
  }

  /** Splitting a line built from separator-free fields gives the fields back. */
  lemma {:induction false} SplitPrefixed(head: string, ss: seq<string>, sep: char)
    requires sep !in head && NoneContains(ss, sep)
    ensures Split(head + Prefixed(ss, sep), sep) == [head] + ss
    decreases |ss|
  {
    if ss == [] {
      assert head + Prefixed(ss, sep) == head;
    } else {
      NoneContainsTail(ss, sep);
      SplitPrefixed(ss[0], ss[1..], sep);
      ConsTail(ss);
      SplitPrefixedStep(head, ss, sep);
    }
  }

  lemma SplitPrefixedStep(head: string, ss: seq<string>, sep: char)
    requires ss != [] && sep !in head
    requires Split(ss[0] + Prefixed(ss[1..], sep), sep) == ss
    ensures Split(head + Prefixed(ss, sep), sep) == [head] + ss
  {
    var tail := Prefixed(ss[1..], sep);
    assert Prefixed(ss, sep) == [sep] + ss[0] + tail;
    AppendAssoc([sep], ss[0], tail);
    AppendAssoc(head, [sep], ss[0] + tail);
    SplitAt(head, ss[0] + tail, sep);
  }

  lemma NoneContainsTail(ss: seq<string>, sep: char)
    requires ss != [] && NoneContains(ss, sep)
    ensures sep !in ss[0] && NoneContains(ss[1..], sep)
  {
    forall k | 0 <= k < |ss| - 1 ensures sep !in ss[1..][k] { assert ss[1..][k] == ss[k + 1]; }
  }

  // ---------------------------------------------------------------------
  // Lines of a text file
  // ---------------------------------------------------------------------

  /** The text of a file written line by line with "\r\n" after each line. */
  function JoinLines(ls: seq<string>): string {
    if ls == [] then "" else ls[0] + "\r\n" + JoinLines(ls[1..])
  }

  lemma {:induction false} JoinLinesConcat(a: seq<string>, b: seq<string>)
    ensures JoinLines(a + b) == JoinLines(a) + JoinLines(b)
  {
    if a == [] {
      assert a + b == b;
    } else {
      assert (a + b)[1..] == a[1..] + b;
      JoinLinesConcat(a[1..], b);
      assert JoinLines(a + b) == a[0] + "\r\n" + JoinLines(a[1..] + b);
    }
  }

  lemma JoinLinesAppend(ls: seq<string>, l: string)
    ensures JoinLines(ls + [l]) == JoinLines(ls) + l + "\r\n"
  {
    JoinLinesConcat(ls, [l]);
  }

  /** Length of the first line: the position of the first line break, or |s|. */
  function LineEnd(s: string): (i: nat)
    ensures i <= |s|
    ensures forall k :: 0 <= k < i ==> !IsLineBreak(s[k])
    ensures i < |s| ==> IsLineBreak(s[i])
  {
    if s == [] || IsLineBreak(s[0]) then 0 else 1 + LineEnd(s[1..])
  }

  /** File.ReadAllLines on the text of a file: lines end at "\r\n", "\r" or
      "\n"; a last line without a line break still counts, an empty file has
      no lines. */
  function ReadLines(s: string): (r: seq<string>)
    ensures r == [] <==> s == []
    ensures forall k :: 0 <= k < |r| ==> NoLineBreak(r[k])
    decreases |s|
  {
    if s == [] then []
    else
      var i := LineEnd(s);
      if i == |s| then [s]
      else
        var next := if s[i] == '\r' && i + 1 < |s| && s[i + 1] == '\n' then i + 2 else i + 1;
        [s[..i]] + ReadLines(s[next..])
  }

  /** Writing lines and reading them back gives the same lines, as long as no
      line holds a line break of its own. */
  lemma {:induction false} ReadLinesJoin(ls: seq<string>)
    requires forall k :: 0 <= k < |ls| ==> NoLineBreak(ls[k])
    ensures ReadLines(JoinLines(ls)) == ls
  {
    if ls != [] {
      var l := ls[0];
      var rest := JoinLines(ls[1..]);
      var s := JoinLines(ls);
      assert s == l + "\r\n" + rest;
      var i := LineEnd(s);
      assert s[|l|] == '\r' && s[|l| + 1] == '\n';
      assert s[..|l|] == l;
      assert i == |l|;
      assert s[..i] == l;
      assert s[i + 2..] == rest;
      ReadLinesJoin(ls[1..]);
    }
  }

  // ---------------------------------------------------------------------
  // Numbers as text
  // ---------------------------------------------------------------------

  function DigitChar(d: nat): char
    requires d < 10
  {
    ('0' as int + d) as char
  }

  /** long.ToString / int.ToString of a non-negative number: its decimal digits. */
  function NatToString(n: nat): (r: string)
    ensures r != [] && AllDigits(r)
    decreases n
  {
    if n < 10 then [DigitChar(n)] else NatToString(n / 10) + [DigitChar(n % 10)]
  }

  /** int.ToString: a minus sign before the digits of a negative number. */
  function IntToString(i: int): (r: string)
    ensures r != [] && IsDigit(r[|r| - 1])
    ensures forall k :: 0 <= k < |r| ==> IsDigit(r[k]) || (k == 0 && r[k] == '-')
  {
    if i < 0 then "-" + NatToString(-i) else NatToString(i)
  }

  /** The number a string of decimal digits stands for. */
  function DigitsValue(ds: string): nat
    requires AllDigits(ds)
  {
    if ds == [] then 0
    else DigitsValue(ds[..|ds| - 1]) * 10 + (ds[|ds| - 1] as int - '0' as int)
  }

  lemma {:induction false} NatToStringValue(n: nat)
    ensures DigitsValue(NatToString(n)) == n
    decreases n
  {
    if n >= 10 {
      var s := NatToString(n);
      assert s[..|s| - 1] == NatToString(n / 10);
      NatToStringValue(n / 10);
    }
  }

  const MinInt32: int := -0x8000_0000
  const MaxInt32: int := 0x7FFF_FFFF

  /** int.TryParse(string, out int) with NumberStyles.Integer: optional
      white space around an optional sign and at least one digit, within the
      range of int. The sign symbols are the "-" and "+" of the usual
      cultures. */
  function TryParseInt(s: string): (r: Option<int>)
    ensures r.Some? ==> MinInt32 <= r.value <= MaxInt32
  {
    ParseSigned(DropTrailing(DropLeading(s, IsNumberWhite), IsNumberWhite))
  }

  /** The number part of int.TryParse, once the white space is gone. */
  function ParseSigned(t: string): (r: Option<int>)
    ensures r.Some? ==> MinInt32 <= r.value <= MaxInt32
  {
    var negative := |t| > 0 && t[0] == '-';
    var digits := if |t| > 0 && (t[0] == '-' || t[0] == '+') then t[1..] else t;
    if digits == [] || !AllDigits(digits) then None
    else
      var v: int := if negative then 0 - DigitsValue(digits) else DigitsValue(digits);
      if MinInt32 <= v <= MaxInt32 then Some(v) else None
  }

  /** Every int printed by int.ToString parses back to itself. */
  lemma ParseIntToString(i: int)
    requires MinInt32 <= i <= MaxInt32
    ensures TryParseInt(IntToString(i)) == Some(i)
  {
    var s := IntToString(i);
    if i < 0 {
      var ds := NatToString(-i);
      NatToStringValue(-i);
      ParseMinusDigits(ds);
    } else {
      NatToStringValue(i);
      ParseDigits(s);
    }
  }

  lemma ParseDigits(ds: string)
    requires ds != [] && AllDigits(ds) && DigitsValue(ds) <= MaxInt32
    ensures TryParseInt(ds) == Some(DigitsValue(ds))
  {
    NumberUnpadded(ds);
  }

  lemma ParseMinusDigits(ds: string)
    requires ds != [] && AllDigits(ds) && DigitsValue(ds) <= -MinInt32
    ensures TryParseInt("-" + ds) == Some(0 - DigitsValue(ds))
  {
    var s := "-" + ds;
    assert s[|s| - 1] == ds[|ds| - 1];
    NumberUnpadded(s);
    assert s[0] == '-' && s[1..] == ds;
  }

  /** Text that starts and ends with no white space loses nothing to the
      white-space stripping of int.TryParse. */
  lemma NumberUnpadded(s: string)
    requires s != [] && !IsNumberWhite(s[0]) && !IsNumberWhite(s[|s| - 1])
    ensures DropTrailing(DropLeading(s, IsNumberWhite), IsNumberWhite) == s
  {
    assert DropLeading(s, IsNumberWhite) == s;
    assert DropTrailing(s, IsNumberWhite) == s;
  }
}
