/** The .NET string operations the services rely on: white-space tests,
    upper-casing, trimming, splitting on a separator, and integer printing. */
module Text {
  import opened Wrappers

  /** `char.IsWhiteSpace`: the Unicode space, line and paragraph separators,
      plus the control characters U+0009..U+000D and U+0085. */
  predicate IsWhiteSpace(c: char) {
    || c == ' '
    || ('\t' <= c <= '\r')
    || c == '\U{85}'
    || c == '\U{A0}'
    || c == '\U{1680}'
    || ('\U{2000}' <= c <= '\U{200A}')
    || c == '\U{2028}'
    || c == '\U{2029}'
    || c == '\U{202F}'
    || c == '\U{205F}'
    || c == '\U{3000}'
  }

  /** `string.IsNullOrWhiteSpace` on a string known not to be null. */
  predicate IsBlank(s: string) {
    forall i :: 0 <= i < |s| ==> IsWhiteSpace(s[i])
  }

  /** `string.IsNullOrWhiteSpace`. */
  predicate IsNullOrBlank(s: Option<string>) {
    s.None? || IsBlank(s.value)
  }

  /** A string with no lower-case ASCII letter. */
  predicate IsUpperCase(s: string) {
    forall i :: 0 <= i < |s| ==> !('a' <= s[i] <= 'z')
  }

  function UpperChar(c: char): char {
    if 'a' <= c <= 'z' then (c as int - 32) as char else c
  }

  /** `ToUpper` / `ToUpperInvariant`, both modelled by the ASCII case mapping. */
  function ToUpper(s: string): (r: string)
    ensures |r| == |s|
    ensures IsUpperCase(r)
    ensures IsUpperCase(s) ==> r == s
    ensures forall i :: 0 <= i < |s| ==> (IsWhiteSpace(r[i]) <==> IsWhiteSpace(s[i]))
    ensures forall i :: 0 <= i < |s| ==> (r[i] == '|' <==> s[i] == '|')
  {
    seq(|s|, i requires 0 <= i < |s| => UpperChar(s[i]))
  }

  /** `TrimStart()`: drops the leading white space and nothing else. */
  function TrimStart(s: string): (r: string)
    ensures |r| <= |s| && r == s[|s| - |r|..]
    ensures IsBlank(s[..|s| - |r|])
    ensures r == [] || !IsWhiteSpace(r[0])
  {
    if s != [] && IsWhiteSpace(s[0]) then
      var r := TrimStart(s[1..]);
      BlankStart(s, r);
      r
    else
      s
  }

  /** Leading white space of all but the first character, after white space, is
      leading white space of the whole. */
  lemma BlankStart(s: string, r: string)
    requires s != [] && IsWhiteSpace(s[0])
    requires |r| <= |s| - 1 && r == s[1..][|s| - 1 - |r|..] && IsBlank(s[1..][..|s| - 1 - |r|])
    ensures r == s[|s| - |r|..] && IsBlank(s[..|s| - |r|])
  {
    forall i | 0 <= i < |s| - |r| ensures IsWhiteSpace(s[i]) {
      if i > 0 {
        assert s[i] == s[1..][..|s| - 1 - |r|][i - 1];
      }
    }
  }

  /** `TrimEnd()`: drops the trailing white space and nothing else. */
  function TrimEnd(s: string): (r: string)
    ensures |r| <= |s| && r == s[..|r|]
    ensures IsBlank(s[|r|..])
    ensures r == [] || !IsWhiteSpace(r[|r| - 1])
  {
    if s != [] && IsWhiteSpace(s[|s| - 1]) then
      var r := TrimEnd(s[..|s| - 1]);
      BlankEnd(s, r);
      r
    else
      s
  }

  /** Trailing white space of all but the last character, followed by white space,
      is trailing white space of the whole. */
  lemma BlankEnd(s: string, r: string)
    requires s != [] && IsWhiteSpace(s[|s| - 1])
    requires |r| <= |s| - 1 && r == s[..|s| - 1][..|r|] && IsBlank(s[..|s| - 1][|r|..])
    ensures r == s[..|r|] && IsBlank(s[|r|..])
  {
    forall i | |r| <= i < |s| ensures IsWhiteSpace(s[i]) {
      if i < |s| - 1 {
        assert s[i] == s[..|s| - 1][|r|..][i - |r|];
      }
    }
  }

  /** `Trim()`: drops the leading and the trailing white space and nothing else. */
  function Trim(s: string): (r: string)
    ensures |r| <= |s|
    ensures r == [] || (!IsWhiteSpace(r[0]) && !IsWhiteSpace(r[|r| - 1]))
    ensures exists k :: TrimmedAt(s, r, k)
    ensures forall i :: 0 <= i < |r| ==> r[i] in s
  {
    var t := TrimStart(s);
    var r := TrimEnd(t);
    TrimSlices(s, t, r);
    r
  }

  /** `r` sits at offset `k` of `s` with only white space around it. */
  ghost predicate TrimmedAt(s: string, r: string, k: int) {
    && 0 <= k <= |s| - |r|
    && r == s[k..k + |r|]
    && IsBlank(s[..k])
    && IsBlank(s[k + |r|..])
  }

  lemma TrimSlices(s: string, t: string, r: string)
    requires |t| <= |s| && t == s[|s| - |t|..] && IsBlank(s[..|s| - |t|])
    requires |r| <= |t| && r == t[..|r|] && IsBlank(t[|r|..])
    ensures TrimmedAt(s, r, |s| - |t|)
    ensures forall i :: 0 <= i < |r| ==> r[i] in s
  {
    var k := |s| - |t|;
    assert r == s[k..k + |r|];
    assert s[k + |r|..] == t[|r|..];
    forall i | 0 <= i < |r| ensures r[i] in s {
      assert r[i] == s[k + i];
    }
  }

  /** A string that `Trim()` leaves as it is. */
  lemma TrimFixesTrimmed(s: string)
    requires s == [] || (!IsWhiteSpace(s[0]) && !IsWhiteSpace(s[|s| - 1]))
    ensures Trim(s) == s
  {
  }

  /** The fields of `s.Split(sep)`, empty fields included. */
  function Split(s: string, sep: char): (parts: seq<string>)
    ensures |parts| >= 1
    ensures forall i :: 0 <= i < |parts| ==> sep !in parts[i]
    ensures Join(parts, sep) == s
    ensures |parts| == Occurrences(s, sep) + 1
  {
    if s == [] then [[]]
    else
      var rest := Split(s[1..], sep);
      if s[0] == sep then
        assert [sep] + Join(rest, sep) == s;
        [[]] + rest
      else
        var parts := [[s[0]] + rest[0]] + rest[1..];
        assert parts[1..] == rest[1..];
        assert Join(parts, sep) == [s[0]] + Join(rest, sep);
        parts
  }

  /** How many times `c` occurs in `s`. */
  function Occurrences(s: string, c: char): nat {
    if s == [] then 0 else (if s[0] == c then 1 else 0) + Occurrences(s[1..], c)
  }

  /** `string.Join(sep, parts)`. */
  function Join(parts: seq<string>, sep: char): string
    requires |parts| >= 1
  {
    if |parts| == 1 then parts[0] else parts[0] + [sep] + Join(parts[1..], sep)
  }

  /** Splitting text that starts with a separator-free run extends the first field. */
  lemma {:induction false} SplitPrefix(a: string, t: string, sep: char)
    requires sep !in a
    ensures Split(a + t, sep) == [a + Split(t, sep)[0]] + Split(t, sep)[1..]
    decreases |a|
  {
    if a == [] {
      var p := Split(t, sep);
      assert a + t == t;
      assert a + p[0] == p[0];
      assert p == [p[0]] + p[1..];
    } else {
      var p := Split(t, sep);
      assert a + t == [a[0]] + (a[1..] + t);
      SplitCons(a[0], a[1..] + t, sep);
      SplitPrefix(a[1..], t, sep);
      Regroup(a, p[0]);
    }
  }

  lemma Regroup(a: string, b: string)
    requires a != []
    ensures [a[0]] + (a[1..] + b) == a + b
  {
    assert a == [a[0]] + a[1..];
  }

  /** A leading character other than the separator starts the first field. */
  lemma SplitCons(c: char, u: string, sep: char)
    requires c != sep
    ensures Split([c] + u, sep) == [[c] + Split(u, sep)[0]] + Split(u, sep)[1..]
  {
    assert ([c] + u)[0] == c && ([c] + u)[1..] == u;
  }

  /** Joining separator-free fields and splitting again gives the fields back. */
  lemma {:induction false} SplitJoin(parts: seq<string>, sep: char)
    requires |parts| >= 1
    requires forall i :: 0 <= i < |parts| ==> sep !in parts[i]
    ensures Split(Join(parts, sep), sep) == parts
    decreases |parts|
  {
    if |parts| == 1 {
      SplitPrefix(parts[0], [], sep);
      assert parts[0] + [] == parts[0];
    } else {
      var tail := Join(parts[1..], sep);
      assert Join(parts, sep) == parts[0] + [sep] + tail;
      SplitJoin(parts[1..], sep);
      assert ([sep] + tail)[0] == sep;
      assert ([sep] + tail)[1..] == tail;
      assert Split([sep] + tail, sep) == [[]] + parts[1..];
      assert parts[0] + [] == parts[0];
      SplitPrefix(parts[0], [sep] + tail, sep);
      assert parts[0] + [sep] + tail == parts[0] + ([sep] + tail);
      assert parts == [parts[0]] + parts[1..];
    }
  }

  function DigitChar(d: int): (c: char)
    requires 0 <= d < 10
    ensures '0' <= c <= '9'
  {
    ('0' as int + d) as char
  }

  /** The decimal digits of `n`, most significant first. */
  function NatText(n: nat): (r: string)
    ensures |r| >= 1
    ensures forall i :: 0 <= i < |r| ==> '0' <= r[i] <= '9'
  {
    if n < 10 then [DigitChar(n)] else NatText(n / 10) + [DigitChar(n % 10)]
  }

  /** `long.ToString()` with the invariant culture. */
  function IntText(n: int): (r: string)
    ensures r != [] && !IsBlank(r)
  {
    if n < 0 then
      var r := "-" + NatText(-n);
      assert !IsWhiteSpace(r[0]);
      r
    else
      var r := NatText(n);
      assert '0' <= r[0] <= '9';
      r
  }
}
