/** The Python string primitives the pipeline relies on, over strings as
    sequences of Unicode code points (Python iterates `str` by code point). */
module Text {
  import opened Results

  type String = seq<char>

  /** A Python value that is either a `pathlib.Path` or a plain `str`. */
  datatype PyPath = PathValue(path: String) | StrValue(text: String)

  /** `str.isspace()`, which is also what the `\s` class of `re` matches
      for str patterns. */
  predicate IsSpace(c: char) {
    || c == ' '
    || ('\t' <= c <= '\r')
    || ('\U{1C}' <= c <= '\U{1F}')
    || c == '\U{85}' || c == '\U{A0}' || c == '\U{1680}'
    || ('\U{2000}' <= c <= '\U{200A}')
    || c == '\U{2028}' || c == '\U{2029}' || c == '\U{202F}'
    || c == '\U{205F}' || c == '\U{3000}'
  }

  /** The characters at which `str.splitlines()` breaks a string. */
  predicate IsLineBreak(c: char) {
    || c == '\n' || c == '\r' || c == '\U{0B}' || c == '\U{0C}'
    || ('\U{1C}' <= c <= '\U{1E}')
    || c == '\U{85}' || c == '\U{2028}' || c == '\U{2029}'
  }

  predicate AllSpace(s: String) {
    forall i :: 0 <= i < |s| ==> IsSpace(s[i])
  }

  predicate NoLineBreak(s: String) {
    forall i :: 0 <= i < |s| ==> !IsLineBreak(s[i])
  }

  predicate StartsWith(s: String, prefix: String) {
    |prefix| <= |s| && s[..|prefix|] == prefix
  }

  predicate OccursAt(s: String, pat: String, i: nat) {
    i + |pat| <= |s| && s[i..i + |pat|] == pat
  }

  /** `pat` occurs nowhere inside `s`. */
  predicate Avoids(s: String, pat: String) {
    forall i :: 0 <= i <= |s| ==> !OccursAt(s, pat, i)
  }

  // ---------------------------------------------------------------- strip

  /** `str.lstrip()`: the longest suffix that does not start with whitespace. */
  function LStrip(s: String): (r: String)
    ensures |r| <= |s| && r == s[|s| - |r|..]
    ensures forall i :: 0 <= i < |s| - |r| ==> IsSpace(s[i])
    ensures r == [] || !IsSpace(r[0])
  {
    if s != [] && IsSpace(s[0]) then LStrip(s[1..]) else s
  }

  /** `str.rstrip()`: the longest prefix that does not end with whitespace. */
  function RStrip(s: String): (r: String)
    ensures |r| <= |s| && r == s[..|r|]
    ensures forall i :: |r| <= i < |s| ==> IsSpace(s[i])
    ensures r == [] || !IsSpace(r[|r| - 1])
  {
    if s != [] && IsSpace(s[|s| - 1]) then RStrip(s[..|s| - 1]) else s
  }

  /** `str.strip()`: `s` with leading and trailing whitespace removed. */
  function Strip(s: String): (r: String)
    ensures |r| <= |s|
    ensures r == [] || (!IsSpace(r[0]) && !IsSpace(r[|r| - 1]))
  {
    RStrip(LStrip(s))
  }

  /** `strip()` keeps the middle of `s`: what it drops on either side is
      whitespace. */
  lemma {:induction false} StripParts(s: String) returns (lead: String, trail: String)
    ensures s == lead + Strip(s) + trail
    ensures AllSpace(lead) && AllSpace(trail)
  {
    var l := LStrip(s);
    var r := RStrip(l);
    assert Strip(s) == r;
    lead, trail := StripPartsOf(s, l, r);
  }

  lemma {:induction false} StripPartsOf(s: String, l: String, r: String) returns (lead: String, trail: String)
    requires |l| <= |s| && l == s[|s| - |l|..]
    requires forall k :: 0 <= k < |s| - |l| ==> IsSpace(s[k])
    requires |r| <= |l| && r == l[..|r|]
    requires forall k :: |r| <= k < |l| ==> IsSpace(l[k])
    ensures s == lead + r + trail
    ensures AllSpace(lead) && AllSpace(trail)
  {
    var i := |s| - |l|;
    PrefixOfSuffix(s, l, r);
    SpaceAfterPrefix(s, l, |r|);
    lead, trail := s[..i], s[i + |r|..];
    assert s == s[..i] + s[i..i + |r|] + s[i + |r|..];
    assert AllSpace(lead) by {
      forall k | 0 <= k < |lead| ensures IsSpace(lead[k]) {
        assert lead[k] == s[k];
      }
    }
    assert AllSpace(trail) by {
      forall k | 0 <= k < |trail| ensures IsSpace(trail[k]) {
        assert trail[k] == s[i + |r| + k];
      }
    }
  }

  lemma {:induction false} SpaceAfterPrefix(s: String, l: String, n: nat)
    requires |l| <= |s| && l == s[|s| - |l|..] && n <= |l|
    requires forall k :: n <= k < |l| ==> IsSpace(l[k])
    ensures forall k :: |s| - |l| + n <= k < |s| ==> IsSpace(s[k])
  {
    var i := |s| - |l|;
    forall k | i + n <= k < |s|
      ensures IsSpace(s[k])
    {
      assert s[k] == l[k - i];
    }
  }

  lemma {:induction false} PrefixOfSuffix(s: String, l: String, r: String)
    requires |l| <= |s| && l == s[|s| - |l|..]
    requires |r| <= |l| && r == l[..|r|]
    ensures s[|s| - |l|..|s| - |l| + |r|] == r
  {
    var i := |s| - |l|;
    forall k | 0 <= k < |r|
      ensures s[i..i + |r|][k] == r[k]
    {
      assert s[i + k] == l[k];
    }
  }

  /** `str.lstrip(c)` for a single character `c`. */
  function LStripChar(s: String, c: char): (r: String)
    ensures |r| <= |s| && r == s[|s| - |r|..]
    ensures forall i :: 0 <= i < |s| - |r| ==> s[i] == c
    ensures r == [] || r[0] != c
  {
    if s != [] && s[0] == c then LStripChar(s[1..], c) else s
  }

  /** `str.rstrip(c)` for a single character `c`. */
  function RStripChar(s: String, c: char): (r: String)
    ensures |r| <= |s| && r == s[..|r|]
    ensures forall i :: |r| <= i < |s| ==> s[i] == c
    ensures r == [] || r[|r| - 1] != c
  {
    if s != [] && s[|s| - 1] == c then RStripChar(s[..|s| - 1], c) else s
  }

  /** `str.strip(c)` for a single character `c`. */
  function StripChar(s: String, c: char): String {
    RStripChar(LStripChar(s, c), c)
  }

  lemma {:induction false} StripOfTrimmed(s: String)
    requires s == [] || (!IsSpace(s[0]) && !IsSpace(s[|s| - 1]))
    ensures Strip(s) == s
  {
  }

  /** Whitespace appended to a string does not survive `strip()`. */
  lemma {:induction false} StripTrailingSpace(s: String, t: String)
    requires AllSpace(t)
    ensures Strip(s + t) == Strip(s)
  {
    var l := LStrip(s + t);
    if LStrip(s) == [] {
      assert AllSpace(s + t);
      LStripAllSpace(s + t);
    } else {
      LStripAppend(s, t);
      RStripTrailing(LStrip(s), t);
    }
  }

  lemma {:induction false} LStripAllSpace(s: String)
    requires AllSpace(s)
    ensures LStrip(s) == []
  {
  }

  lemma {:induction false} LStripAppend(s: String, t: String)
    requires LStrip(s) != []
    ensures LStrip(s + t) == LStrip(s) + t
  {
    if s != [] && IsSpace(s[0]) {
      assert (s + t)[1..] == s[1..] + t;
      LStripAppend(s[1..], t);
    }
  }

  lemma {:induction false} RStripTrailing(s: String, t: String)
    requires AllSpace(t)
    ensures RStrip(s + t) == RStrip(s)
    decreases |t|
  {
    if t != [] {
      assert (s + t)[..|s + t| - 1] == s + t[..|t| - 1];
      RStripTrailing(s, t[..|t| - 1]);
    } else {
      assert s + t == s;
    }
  }

  // ---------------------------------------------------------------- search

  /** The first index of `c` in `s`, like `str.find` with a one-character
      pattern. */
  function IndexOf(s: String, c: char): (r: Option<nat>)
    ensures r.Some? ==> r.value < |s| && s[r.value] == c && c !in s[..r.value]
    ensures r.None? ==> c !in s
  {
    if s == [] then None
    else if s[0] == c then Some(0)
    else match IndexOf(s[1..], c)
      case None => None
      case Some(i) => assert s[..i + 1] == [s[0]] + s[1..][..i]; Some(i + 1)
  }

  lemma {:induction false} IndexOfFirst(x: String, c: char, y: String)
    requires c !in x
    ensures IndexOf(x + [c] + y, c) == Some(|x|)
  {
    var s := x + [c] + y;
    assert s[|x|] == c;
    assert s[..|x|] == x;
    var r := IndexOf(s, c);
    assert c in s;
    assert r.Some?;
    assert forall j :: |x| < j <= |s| ==> s[..j][|x|] == c;
    assert forall j :: 0 <= j < |x| ==> s[j] == x[j];
  }

  /** `s.find(pat, start)`: the first occurrence of `pat` at or after
      `start`, or None for Python's -1. */
  function Find(s: String, pat: String, start: nat): (r: Option<nat>)
    ensures r.Some? ==> start <= r.value && OccursAt(s, pat, r.value)
    ensures r.Some? ==> forall j :: start <= j < r.value ==> !OccursAt(s, pat, j)
    ensures r.None? ==> forall j :: start <= j <= |s| ==> !OccursAt(s, pat, j)
    decreases |s| - start
  {
    if start + |pat| > |s| then None
    else if s[start..start + |pat|] == pat then Some(start)
    else Find(s, pat, start + 1)
  }

  /** An occurrence inside a slice is an occurrence in the whole. */
  lemma {:induction false} OccursInSlice(s: String, lo: nat, hi: nat, pat: String, j: nat)
    requires lo <= hi <= |s|
    ensures OccursAt(s[lo..hi], pat, j) ==> OccursAt(s, pat, lo + j)
  {
    var t := s[lo..hi];
    if OccursAt(t, pat, j) {
      forall k | 0 <= k < |pat|
        ensures s[lo + j + k] == pat[k]
      {
        assert t[j..j + |pat|][k] == t[j + k];
      }
      assert s[lo + j..lo + j + |pat|] == pat;
    }
  }

  /** An occurrence with none before it, from `start` on, is the one found. */
  lemma {:induction false} FindFirst(s: String, pat: String, start: nat, at: nat)
    requires start <= at && OccursAt(s, pat, at)
    requires forall j :: start <= j < at ==> !OccursAt(s, pat, j)
    ensures Find(s, pat, start) == Some(at)
  {
  }

  /** The first character of `pat` does not recur in it, so two occurrences
      of `pat` never overlap (`<entry>`, `</entry>` and every XML tag). */
  predicate UniqueHead(pat: String) {
    pat != [] && pat[0] !in pat[1..]
  }

  /** Searching from the end of `x`, across a gap that holds no `pat`, finds
      the `pat` that follows the gap. */
  lemma {:induction false} FindAfterGap(x: String, gap: String, pat: String, rest: String)
    requires UniqueHead(pat) && Avoids(gap, pat)
    ensures Find(x + gap + pat + rest, pat, |x|) == Some(|x| + |gap|)
  {
    var s := x + gap + pat + rest;
    var c := |x| + |gap|;
    assert s[c..c + |pat|] == pat;
    forall j | |x| <= j < c
      ensures !OccursAt(s, pat, j)
    {
      if j + |pat| <= c {
        assert s[j..j + |pat|] == gap[j - |x|..j - |x| + |pat|];
        assert !OccursAt(gap, pat, j - |x|);
      } else if j + |pat| <= |s| {
        var k := c - j;
        assert pat[1..][k - 1] == pat[k];
        assert s[j..j + |pat|][k] == s[c] == pat[0];
        assert s[j..j + |pat|][k] != pat[k];
      }
    }
    FindFirst(s, pat, |x|, c);
  }

  /** A slice that ends before the first occurrence of `pat` from its start
      holds no `pat`. */
  lemma {:induction false} SliceAvoids(s: String, lo: nat, hi: nat, pat: String)
    requires lo <= hi <= |s| && pat != []
    requires forall j :: lo <= j < hi ==> !OccursAt(s, pat, j)
    ensures Avoids(s[lo..hi], pat)
  {
    forall j | 0 <= j <= hi - lo
      ensures !OccursAt(s[lo..hi], pat, j)
    {
      OccursInSlice(s, lo, hi, pat, j);
    }
  }

  /** The slice after `a` of length `|v|` is `v`. */
  lemma {:induction false} MiddleSlice<T>(a: seq<T>, v: seq<T>, c: seq<T>, r: seq<T>)
    ensures (a + v + c + r)[|a|..|a| + |v|] == v
  {
    assert a + v + c + r == a + (v + (c + r));
  }

  /** `a + b + (c + d + e)` is `a + b + c + d + e`. */
  lemma {:induction false} Regroup<T>(a: seq<T>, b: seq<T>, c: seq<T>, d: seq<T>, e: seq<T>)
    ensures a + b + (c + d + e) == a + b + c + d + e
  {
    AppendAssociative(a + b, c + d, e);
    AppendAssociative(a + b, c, d);
  }

  // ---------------------------------------------------------------- split

  /** The strings of `parts` with `sep` between consecutive ones
      (`sep.join(parts)`). */
  function Join(parts: seq<String>, sep: String): String {
    if |parts| == 0 then []
    else if |parts| == 1 then parts[0]
    else parts[0] + sep + Join(parts[1..], sep)
  }

  /** The strings of `parts` run together (`"".join(parts)`). */
  function Concat(parts: seq<String>): String {
    if parts == [] then [] else parts[0] + Concat(parts[1..])
  }

  lemma {:induction false} ConcatAppend(a: seq<String>, b: seq<String>)
    ensures Concat(a + b) == Concat(a) + Concat(b)
  {
    if a != [] {
      assert (a + b)[1..] == a[1..] + b;
      ConcatAppend(a[1..], b);
    } else {
      assert a + b == b;
    }
  }

  /** `s.split(sep)` for a one-character separator: the pieces between
      separators, which joined with `sep` give back `s`. */
  function Split(s: String, sep: char): (r: seq<String>)
    ensures |r| >= 1
    ensures Join(r, [sep]) == s
    ensures forall i :: 0 <= i < |r| ==> sep !in r[i]
    decreases |s|
  {
    match IndexOf(s, sep)
    case None => [s]
    case Some(i) =>
      var rest := Split(s[i + 1..], sep);
      assert s == s[..i] + [sep] + s[i + 1..];
      [s[..i]] + rest
  }

  /** Splitting a string that is itself free of separators gives it back whole. */
  lemma {:induction false} SplitNoSep(s: String, sep: char)
    requires sep !in s
    ensures Split(s, sep) == [s]
  {
  }

  lemma {:induction false} SplitCons(a: String, sep: char, b: String)
    requires sep !in a
    ensures Split(a + [sep] + b, sep) == [a] + Split(b, sep)
  {
    var s := a + [sep] + b;
    assert s[|a|] == sep;
    assert s[..|a|] == a;
    var i := IndexOf(s, sep);
    assert i.Some?;
    assert i.value == |a|;
    assert s[|a| + 1..] == b;
  }

  /** The index of the first `str.splitlines()` break character. */
  function FirstLineBreak(s: String): (r: Option<nat>)
    ensures r.Some? ==> r.value < |s| && IsLineBreak(s[r.value]) && NoLineBreak(s[..r.value])
    ensures r.None? ==> NoLineBreak(s)
  {
    if s == [] then None
    else if IsLineBreak(s[0]) then Some(0)
    else match FirstLineBreak(s[1..])
      case None => None
      case Some(i) => assert s[..i + 1] == [s[0]] + s[1..][..i]; Some(i + 1)
  }

  /** `s.splitlines()`: the lines of `s` without their terminators, "\r\n"
      counting as one terminator and no empty line after a final one. */
  function SplitLines(s: String): (r: seq<String>)
    ensures forall i :: 0 <= i < |r| ==> NoLineBreak(r[i])
    ensures r == [] <==> s == []
    decreases |s|
  {
    if s == [] then []
    else match FirstLineBreak(s)
      case None => [s]
      case Some(i) =>
        var next := if s[i] == '\r' && i + 1 < |s| && s[i + 1] == '\n' then i + 2 else i + 1;
        [s[..i]] + SplitLines(s[next..])
  }

  lemma {:induction false} SplitLinesCons(a: String, b: String)
    requires NoLineBreak(a)
    ensures SplitLines(a + "\n" + b) == [a] + SplitLines(b)
  {
    var s := a + "\n" + b;
    assert s[..|a|] == a;
    var i := FirstLineBreak(s);
    assert i.Some? && i.value <= |a| by {
      assert IsLineBreak(s[|a|]);
    }
    forall k | 0 <= k < |a|
      ensures !IsLineBreak(s[k])
    {
      assert s[k] == a[k];
    }
    assert i.value == |a|;
    assert s[|a| + 1..] == b;
  }

  lemma {:induction false} SplitLinesSingle(a: String)
    requires NoLineBreak(a) && a != []
    ensures SplitLines(a) == [a]
  {
  }

  /** The lines of `lines`, each followed by a newline, as a file holds them. */
  function Terminated(lines: seq<String>): String {
    if lines == [] then [] else lines[0] + "\n" + Terminated(lines[1..])
  }

  lemma {:induction false} TerminatedEnds(lines: seq<String>)
    requires lines != []
    ensures var t := Terminated(lines); t != [] && t[|t| - 1] == '\n'
  {
    if |lines| > 1 {
      TerminatedEnds(lines[1..]);
    }
  }

  /** `splitlines()` gives back the lines of a file written line by line. */
  lemma {:induction false} SplitLinesTerminated(lines: seq<String>)
    requires forall i :: 0 <= i < |lines| ==> NoLineBreak(lines[i])
    ensures SplitLines(Terminated(lines)) == lines
  {
    if lines != [] {
      SplitLinesTerminated(lines[1..]);
      SplitLinesCons(lines[0], Terminated(lines[1..]));
      assert lines == [lines[0]] + lines[1..];
    }
  }

  lemma {:induction false} AppendAssociative<T>(a: seq<T>, b: seq<T>, c: seq<T>)
    ensures a + (b + c) == (a + b) + c
  {
  }

  /** `split("\n")` gives back the lines and an empty piece after the last
      newline. */
  lemma {:induction false} SplitTerminated(lines: seq<String>)
    requires forall i :: 0 <= i < |lines| ==> '\n' !in lines[i]
    ensures Split(Terminated(lines), '\n') == lines + [[]]
  {
    if lines == [] {
      SplitNoSep([], '\n');
    } else {
      SplitTerminated(lines[1..]);
      assert Terminated(lines) == lines[0] + ['\n'] + Terminated(lines[1..]);
      SplitCons(lines[0], '\n', Terminated(lines[1..]));
      assert lines == [lines[0]] + lines[1..];
      AppendAssociative([lines[0]], lines[1..], [[]]);
    }
  }

  /** A string without dashes holds no `---`. */
  lemma {:induction false} NoDashAvoids(s: String)
    requires '-' !in s
    ensures Avoids(s, "---")
  {
    forall i | 0 <= i <= |s|
      ensures !OccursAt(s, "---", i)
    {
      if i + 3 <= |s| {
        assert s[i..i + 3][0] == s[i] != '-';
      }
    }
  }

  /** A `---` cannot straddle a joint with a character other than a dash
      on either side of it. */
  lemma {:induction false} AvoidsDashesAppend(a: String, b: String)
    requires Avoids(a, "---") && Avoids(b, "---")
    requires a == [] || b == [] || a[|a| - 1] != '-' || b[0] != '-'
    ensures Avoids(a + b, "---")
  {
    var s := a + b;
    forall i | 0 <= i <= |s|
      ensures !OccursAt(s, "---", i)
    {
      if i + 3 <= |s| {
        if i + 3 <= |a| {
          assert s[i..i + 3] == a[i..i + 3];
          assert !OccursAt(a, "---", i);
        } else if i >= |a| {
          assert s[i..i + 3] == b[i - |a|..i - |a| + 3];
          assert !OccursAt(b, "---", i - |a|);
        } else if a[|a| - 1] != '-' {
          DashWindow(s, i, |a| - 1);
        } else {
          DashWindow(s, i, |a|);
        }
      }
    }
  }

  /** A window holding a character other than a dash is not `---`. */
  lemma {:induction false} DashWindow(s: String, i: nat, k: nat)
    requires i <= k < i + 3 <= |s| && s[k] != '-'
    ensures !OccursAt(s, "---", i)
  {
    assert s[i..i + 3][k - i] == s[k];
  }

  /** Lines free of `---` give a file free of `---`. */
  lemma {:induction false} AvoidsTerminated(lines: seq<String>)
    requires forall i :: 0 <= i < |lines| ==> Avoids(lines[i], "---")
    ensures Avoids(Terminated(lines), "---")
  {
    if lines != [] {
      AvoidsTerminated(lines[1..]);
      NoDashAvoids("\n");
      AvoidsDashesAppend(lines[0], "\n");
      AvoidsDashesAppend(lines[0] + "\n", Terminated(lines[1..]));
    }
  }

  // ---------------------------------------------------------------- numbers

  predicate IsDigit(c: char) {
    '0' <= c <= '9'
  }

  predicate AllDigits(s: String) {
    forall i :: 0 <= i < |s| ==> IsDigit(s[i])
  }

  /** The value of a run of decimal digits, as Python's `int(s)` reads it. */
  function DecimalValue(s: String): nat
    requires AllDigits(s)
  {
    if s == [] then 0
    else DecimalValue(s[..|s| - 1]) * 10 + (s[|s| - 1] as int - '0' as int)
  }

  /** Python's `str(n)` for a natural number. */
  function NatToDecimal(n: nat): (r: String)
    ensures r != [] && AllDigits(r)
    ensures |r| == 1 || r[0] != '0'
    ensures DecimalValue(r) == n
  {
    var d := ('0' as int + n % 10) as char;
    if n < 10 then [d]
    else
      var r := NatToDecimal(n / 10) + [d];
      assert r[..|r| - 1] == NatToDecimal(n / 10);
      r
  }

  /** Python's `str(n)` for any integer: a minus sign before the digits of a
      negative number. */
  function IntToDecimal(n: int): (r: String)
    ensures r != []
    ensures n >= 0 ==> AllDigits(r) && DecimalValue(r) == n
    ensures n < 0 ==> r[0] == '-' && AllDigits(r[1..]) && DecimalValue(r[1..]) == -n
  {
    if n >= 0 then NatToDecimal(n) else "-" + NatToDecimal(-n)
  }

  // ---------------------------------------------------------------- order

  /** Python's `<` on strings: lexicographic by code point. */
  predicate StrLess(a: String, b: String) {
    if a == [] then b != []
    else if b == [] then false
    else if a[0] != b[0] then a[0] < b[0]
    else StrLess(a[1..], b[1..])
  }

  lemma {:induction false} StrLessIrreflexive(a: String)
    ensures !StrLess(a, a)
  {
    if a != [] {
      StrLessIrreflexive(a[1..]);
    }
  }

  lemma {:induction false} StrLessAsymmetric(a: String, b: String)
    requires StrLess(a, b)
    ensures !StrLess(b, a)
  {
    if a != [] && b != [] && a[0] == b[0] {
      StrLessAsymmetric(a[1..], b[1..]);
    }
  }

  lemma {:induction false} StrLessTransitive(a: String, b: String, c: String)
    requires StrLess(a, b) && StrLess(b, c)
    ensures StrLess(a, c)
  {
    if a != [] && b != [] && c != [] && a[0] == b[0] && b[0] == c[0] {
      StrLessTransitive(a[1..], b[1..], c[1..]);
    }
  }

  lemma {:induction false} StrLessTotal(a: String, b: String)
    requires a != b
    ensures StrLess(a, b) || StrLess(b, a)
  {
    if a != [] && b != [] && a[0] == b[0] {
      assert a == [a[0]] + a[1..] && b == [b[0]] + b[1..];
      StrLessTotal(a[1..], b[1..]);
    }
  }

  // ---------------------------------------------------------------- slices

  /** Python's `s[:n]`, where a negative `n` counts from the end. */
  function PyPrefix<T>(s: seq<T>, n: int): (r: seq<T>)
    ensures |r| <= |s| && r == s[..|r|]
    ensures n >= 0 ==> |r| == if n < |s| then n else |s|
    ensures n < 0 ==> |r| == if |s| + n > 0 then |s| + n else 0
  {
    if n >= 0 then (if n < |s| then s[..n] else s)
    else (if |s| + n > 0 then s[..|s| + n] else [])
  }
}
