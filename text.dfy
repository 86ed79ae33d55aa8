/**
  * The handful of Python `str` operations the protocol engine relies on,
  * stated over `seq<char>`.  Whitespace is the set Python's `str.isspace`
  * accepts; case mapping covers ASCII letters only.
  */
module Text {
  import opened Wrappers

  /** Python truthiness of an optional string: present and non-empty. */
  predicate Truthy(o: Option<string>) {
    o.Some? && o.value != ""
  }

  /** An optional string as an f-string writes it: "None" when absent. */
  function Shown(o: Option<string>): (r: string)
    ensures o.Some? ==> r == o.value
    ensures o.None? ==> r == "None"
  {
    if o.Some? then o.value else "None"
  }

  /** Python's `str.isspace()` for one character (also what `\s` matches in `re`). */
  predicate IsSpace(c: char) {
    c == ' ' || ('\t' <= c <= '\r') || ('\U{1C}' <= c <= '\U{1F}')
    || c == '\U{85}' || c == '\U{A0}' || c == '\U{1680}'
    || ('\U{2000}' <= c <= '\U{200A}') || c == '\U{2028}' || c == '\U{2029}'
    || c == '\U{202F}' || c == '\U{205F}' || c == '\U{3000}'
  }

  predicate AllSpace(s: string) {
    forall i :: 0 <= i < |s| ==> IsSpace(s[i])
  }

  predicate NoSpace(s: string) {
    forall i :: 0 <= i < |s| ==> !IsSpace(s[i])
  }

  /** Length of the run of whitespace that opens `s`. */
  function LeadingSpaces(s: string): (n: nat)
    ensures n <= |s|
    ensures AllSpace(s[..n])
    ensures forall k :: 0 <= k < n ==> IsSpace(s[k])
    ensures n < |s| ==> !IsSpace(s[n])
    decreases |s|
  {
    if s == [] || !IsSpace(s[0]) then 0
    else
      var m := LeadingSpaces(s[1..]);
      assert s[..m + 1] == [s[0]] + s[1..][..m];
      1 + m
  }

  /** Length of the run of whitespace that closes `s`. */
  function TrailingSpaces(s: string): (n: nat)
    ensures n <= |s|
    ensures forall k :: |s| - n <= k < |s| ==> IsSpace(s[k])
    ensures n < |s| ==> !IsSpace(s[|s| - n - 1])
    decreases |s|
  {
    if s == [] || !IsSpace(s[|s| - 1]) then 0
    else
      var t := s[..|s| - 1];
      var m := TrailingSpaces(t);
      assert forall k :: |s| - (m + 1) <= k < |s| - 1 ==> t[k] == s[k];
      1 + m
  }

  /** Python's `str.strip()` with no argument. */
  function Strip(s: string): (r: string)
    ensures |r| <= |s|
    ensures r != [] ==> !IsSpace(r[0]) && !IsSpace(r[|r| - 1])
    ensures AllSpace(s) <==> r == []
  {
    var i := LeadingSpaces(s);
    if i == |s| then
      assert s[..i] == s;
      []
    else
      var n := TrailingSpaces(s);
      s[i..|s| - n]
  }

  /** `strip()` keeps exactly what lies between the first and the last non-space character. */
  lemma StripBetween(s: string, i: nat, j: nat)
    requires i < j <= |s|
    requires AllSpace(s[..i]) && AllSpace(s[j..])
    requires !IsSpace(s[i]) && !IsSpace(s[j - 1])
    ensures Strip(s) == s[i..j]
  {
    var l := LeadingSpaces(s);
    assert forall k :: 0 <= k < i ==> s[..i][k] == s[k];
    assert forall k :: 0 <= k < l ==> s[..l][k] == s[k];
    assert l == i;
    var n := TrailingSpaces(s);
    assert forall k :: j <= k < |s| ==> s[j..][k - j] == s[k];
    assert forall k :: |s| - n <= k < |s| ==> s[|s| - n..][k - (|s| - n)] == s[k];
    assert n == |s| - j;
  }

  /** The bounds `StripBetween` needs exist for every string that is not all whitespace. */
  lemma StripBounds(s: string) returns (i: nat, j: nat)
    requires !AllSpace(s)
    ensures i < j <= |s|
    ensures AllSpace(s[..i]) && AllSpace(s[j..])
    ensures !IsSpace(s[i]) && !IsSpace(s[j - 1])
    ensures Strip(s) == s[i..j]
  {
    i := LeadingSpaces(s);
    j := |s| - TrailingSpaces(s);
  }

  /** Whitespace added on both sides is stripped away again. */
  lemma StripPadded(t: string, pad: string)
    requires AllSpace(pad)
    ensures Strip(pad + t + pad) == Strip(t)
  {
    if AllSpace(t) {
      PaddedAllSpace(t, pad);
    } else {
      StripPaddedInner(t, pad);
    }
  }

  lemma StripPaddedInner(t: string, pad: string)
    requires AllSpace(pad) && !AllSpace(t)
    ensures Strip(pad + t + pad) == Strip(t)
  {
    var i, j := StripBounds(t);
    var p := |pad|;
    PaddedEnds(t, pad, i, j);
    StripBetween(pad + t + pad, p + i, p + j);
  }

  lemma PaddedAllSpace(t: string, pad: string)
    requires AllSpace(pad) && AllSpace(t)
    ensures AllSpace(pad + t + pad)
  {
    var s := pad + t + pad;
    forall k | 0 <= k < |s| ensures IsSpace(s[k]) {
      if k < |pad| {
        assert s[k] == pad[k];
      } else if k < |pad| + |t| {
        assert s[k] == t[k - |pad|];
      } else {
        assert s[k] == pad[k - |pad| - |t|];
      }
    }
  }

  /** Where the padded string's kept part starts and ends. */
  lemma PaddedEnds(t: string, pad: string, i: nat, j: nat)
    requires AllSpace(pad) && i < j <= |t|
    requires AllSpace(t[..i]) && AllSpace(t[j..])
    ensures var s := pad + t + pad;
      && AllSpace(s[..|pad| + i]) && AllSpace(s[|pad| + j..])
      && s[|pad| + i] == t[i] && s[|pad| + j - 1] == t[j - 1]
      && s[|pad| + i..|pad| + j] == t[i..j]
  {
    var s := pad + t + pad;
    var p := |pad|;
    forall k | 0 <= k < p + i ensures IsSpace(s[k]) {
      if k < p {
        assert s[k] == pad[k];
      } else {
        assert s[k] == t[..i][k - p];
      }
    }
    assert forall k :: 0 <= k < p + i ==> s[..p + i][k] == s[k];
    forall k | p + j <= k < |s| ensures IsSpace(s[k]) {
      if k < p + |t| {
        assert s[k] == t[j..][k - p - j];
      } else {
        assert s[k] == pad[k - p - |t|];
      }
    }
    assert forall k :: p + j <= k < |s| ==> s[p + j..][k - (p + j)] == s[k];
    assert s[p + i..p + j] == t[i..j];
  }

  /** Upper-casing keeps whitespace where it is, so it commutes with `strip()`. */
  lemma StripUpper(s: string)
    ensures Strip(Upper(s)) == Upper(Strip(s))
  {
    var u := Upper(s);
    UpperKeepsSpace(s);
    if AllSpace(s) {
      assert AllSpace(u);
    } else {
      var i, j := StripBounds(s);
      SpacesAt(s, u, i, j);
      StripBetween(u, i, j);
      UpperSlice(s, i, j);
    }
  }

  lemma UpperSlice(s: string, i: nat, j: nat)
    requires i <= j <= |s|
    ensures Upper(s)[i..j] == Upper(s[i..j])
  {
  }

  lemma UpperKeepsSpace(s: string)
    ensures forall k :: 0 <= k < |s| ==> (IsSpace(Upper(s)[k]) <==> IsSpace(s[k]))
  {
  }

  /** Two strings with whitespace at the same places share their leading and trailing runs. */
  lemma SpacesAt(s: string, u: string, i: nat, j: nat)
    requires |u| == |s| && i <= j <= |s|
    requires forall k :: 0 <= k < |s| ==> (IsSpace(u[k]) <==> IsSpace(s[k]))
    requires AllSpace(s[..i]) && AllSpace(s[j..])
    requires i < |s| ==> !IsSpace(s[i])
    requires 0 < j ==> !IsSpace(s[j - 1])
    ensures AllSpace(u[..i]) && AllSpace(u[j..])
    ensures i < |s| ==> !IsSpace(u[i])
    ensures 0 < j ==> !IsSpace(u[j - 1])
  {
    forall k | 0 <= k < i ensures IsSpace(u[..i][k]) {
      assert s[..i][k] == s[k];
    }
    forall k | 0 <= k < |u| - j ensures IsSpace(u[j..][k]) {
      assert s[j..][k] == s[j + k];
    }
  }

  /** ASCII lower-casing of one character. */
  function LowerChar(c: char): char {
    if 'A' <= c <= 'Z' then (c as int + 32) as char else c
  }

  /** ASCII upper-casing of one character. */
  function UpperChar(c: char): char {
    if 'a' <= c <= 'z' then (c as int - 32) as char else c
  }

  function Lower(s: string): (r: string)
    ensures |r| == |s|
    ensures forall i :: 0 <= i < |s| ==> r[i] == LowerChar(s[i])
  {
    seq(|s|, i requires 0 <= i < |s| => LowerChar(s[i]))
  }

  function Upper(s: string): (r: string)
    ensures |r| == |s|
    ensures forall i :: 0 <= i < |s| ==> r[i] == UpperChar(s[i])
  {
    seq(|s|, i requires 0 <= i < |s| => UpperChar(s[i]))
  }

  /** Lower-casing forgets any upper-casing done before it. */
  lemma LowerUpper(s: string)
    ensures Lower(Upper(s)) == Lower(s)
  {
  }

  predicate IsAsciiLetter(c: char) {
    'A' <= c <= 'Z' || 'a' <= c <= 'z'
  }

  /**
    * Python's `str.title()` on ASCII: a letter is upper-cased when the
    * character before it is not a letter, lower-cased otherwise.
    */
  function Title(s: string): (r: string)
    ensures |r| == |s|
  {
    TitleAfter(s, false)
  }

  function TitleAfter(s: string, afterLetter: bool): (r: string)
    ensures |r| == |s|
    decreases |s|
  {
    if s == [] then []
    else
      var c := if !IsAsciiLetter(s[0]) then s[0]
               else if afterLetter then LowerChar(s[0]) else UpperChar(s[0]);
      [c] + TitleAfter(s[1..], IsAsciiLetter(s[0]))
  }

  predicate StartsWith(s: string, prefix: string) {
    |prefix| <= |s| && s[..|prefix|] == prefix
  }

  /** Python's `sub in s`. */
  predicate Contains(s: string, sub: string) {
    exists i :: 0 <= i <= |s| && StartsWith(s[i..], sub)
  }

  lemma ContainsMiddle(a: string, b: string, c: string)
    ensures Contains(a + b + c, b)
  {
    var s := a + b + c;
    assert s[|a|..][..|b|] == b;
    assert StartsWith(s[|a|..], b);
  }

  /** A string that contains `mid` contains whatever `mid` contains. */
  lemma ContainsTrans(s: string, mid: string, sub: string)
    requires Contains(s, mid) && Contains(mid, sub)
    ensures Contains(s, sub)
  {
    var i :| 0 <= i <= |s| && StartsWith(s[i..], mid);
    var j :| 0 <= j <= |mid| && StartsWith(mid[j..], sub);
    forall k | 0 <= k < |sub|
      ensures s[i + j..][k] == sub[k]
    {
      assert mid[j..][..|sub|][k] == sub[k];
      assert s[i..][..|mid|][j + k] == mid[j + k];
    }
    assert s[i + j..][..|sub|] == sub;
  }

  /** A message built as `pre + x + (mid + y + post)` contains both `x` and `y`. */
  lemma ContainsBoth(pre: string, x: string, mid: string, y: string, post: string)
    ensures Contains(pre + x + (mid + y + post), x)
    ensures Contains(pre + x + (mid + y + post), y)
  {
    var tail := mid + y + post;
    ContainsMiddle(pre, x, tail);
    ContainsMiddle(mid, y, post);
    ContainsMiddle(pre + x, tail, "");
    assert pre + x + tail + "" == pre + x + tail;
    ContainsTrans(pre + x + tail, tail, y);
  }

  /** Index of the first `c` in `s`, or `|s|` when there is none. */
  function IndexOfChar(s: string, c: char): (i: nat)
    ensures i <= |s|
    ensures i < |s| ==> s[i] == c
    ensures forall k :: 0 <= k < i ==> s[k] != c
    decreases |s|
  {
    if s == [] then 0
    else if s[0] == c then 0
    else 1 + IndexOfChar(s[1..], c)
  }

  /** Python's `sep.join(parts)`. */
  function Join(parts: seq<string>, sep: string): string
    decreases |parts|
  {
    if parts == [] then ""
    else if |parts| == 1 then parts[0]
    else parts[0] + sep + Join(parts[1..], sep)
  }

  /** A join is at least as long as its first part. */
  lemma JoinLonger(parts: seq<string>, sep: string)
    requires parts != []
    ensures |Join(parts, sep)| >= |parts[0]|
  {
  }

  /** Joining one more part appends the separator and that part. */
  lemma {:induction false} JoinSnoc(parts: seq<string>, sep: string, p: string)
    requires parts != []
    ensures Join(parts + [p], sep) == Join(parts, sep) + sep + p
    decreases |parts|
  {
    if |parts| > 1 {
      JoinSnoc(parts[1..], sep, p);
      assert (parts + [p])[1..] == parts[1..] + [p];
    }
  }

  /** Joining lines that hold no separator and splitting again gives back the lines. */
  lemma {:induction false} SplitOnJoin(parts: seq<string>, sep: char)
    requires parts != []
    requires forall k :: 0 <= k < |parts| ==> sep !in parts[k]
    ensures SplitOn(Join(parts, [sep]), sep) == parts
    decreases |parts|
  {
    var s := Join(parts, [sep]);
    var i := IndexOfChar(s, sep);
    if |parts| == 1 {
      assert s == parts[0];
      assert forall k :: 0 <= k < |s| ==> s[k] in parts[0];
    } else {
      var rest := Join(parts[1..], [sep]);
      assert s == parts[0] + [sep] + rest;
      var n := |parts[0]|;
      assert s[n] == sep;
      assert forall k :: 0 <= k < n ==> s[k] == parts[0][k] && s[k] in parts[0];
      assert s[..i] == parts[0];
      assert s[i + 1..] == rest;
      SplitOnJoin(parts[1..], sep);
      assert parts == [parts[0]] + parts[1..];
    }
  }

  /** Python's `s.split(sep)` for a one-character separator. */
  function SplitOn(s: string, sep: char): (r: seq<string>)
    ensures |r| >= 1
    ensures forall k :: 0 <= k < |r| ==> sep !in r[k]
    decreases |s|
  {
    var i := IndexOfChar(s, sep);
    if i == |s| then [s]
    else [s[..i]] + SplitOn(s[i + 1..], sep)
  }

  /** Splitting on a separator and joining with it again gives back the text. */
  lemma {:induction false} JoinSplitOn(s: string, sep: char)
    ensures Join(SplitOn(s, sep), [sep]) == s
    decreases |s|
  {
    var i := IndexOfChar(s, sep);
    if i < |s| {
      var rest := s[i + 1..];
      JoinSplitOn(rest, sep);
      assert SplitOn(s, sep) == [s[..i]] + SplitOn(rest, sep);
      assert s == s[..i] + [sep] + rest;
    }
  }

  /** Python's `str.split()` with no argument: maximal runs of non-whitespace. */
  function Words(s: string): (r: seq<string>)
    ensures forall k :: 0 <= k < |r| ==> r[k] != [] && NoSpace(r[k])
    decreases |s|
  {
    var i := LeadingSpaces(s);
    if i == |s| then []
    else
      var n := WordLength(s[i..]);
      assert s[i..i + n] == s[i..][..n];
      [s[i..i + n]] + Words(s[i + n..])
  }

  function WordLength(s: string): (n: nat)
    requires s != [] && !IsSpace(s[0])
    ensures 1 <= n <= |s|
    ensures NoSpace(s[..n])
    ensures n < |s| ==> IsSpace(s[n])
    decreases |s|
  {
    if |s| == 1 || IsSpace(s[1]) then 1
    else
      var m := WordLength(s[1..]);
      assert s[..m + 1] == [s[0]] + s[1..][..m];
      1 + m
  }

  /**
    * Python's `s.replace(pat, rep)`: occurrences are found left to right
    * and do not overlap.
    */
  function ReplaceAll(s: string, pat: string, rep: string): (r: string)
    requires pat != []
    ensures !Contains(s, pat) ==> r == s
    decreases |s|
  {
    if |s| < |pat| then
      s
    else if s[..|pat|] == pat then
      assert StartsWith(s[0..], pat);
      rep + ReplaceAll(s[|pat|..], pat, rep)
    else
      var r := ReplaceAll(s[1..], pat, rep);
      assert Contains(s[1..], pat) ==> Contains(s, pat) by {
        if Contains(s[1..], pat) {
          var i :| 0 <= i <= |s[1..]| && StartsWith(s[1..][i..], pat);
          assert s[1..][i..] == s[i + 1..];
        }
      }
      [s[0]] + r
  }

  /** The characters Python's `str.splitlines()` treats as line boundaries. */
  predicate IsLineBreak(c: char) {
    c == '\n' || c == '\r' || c == '\U{0B}' || c == '\U{0C}'
    || ('\U{1C}' <= c <= '\U{1E}') || c == '\U{85}' || c == '\U{2028}' || c == '\U{2029}'
  }

  predicate NoLineBreak(s: string) {
    forall i :: 0 <= i < |s| ==> !IsLineBreak(s[i])
  }

  function FirstLineBreak(s: string): (i: nat)
    ensures i <= |s|
    ensures i < |s| ==> IsLineBreak(s[i])
    ensures NoLineBreak(s[..i])
    decreases |s|
  {
    if s == [] || IsLineBreak(s[0]) then 0
    else
      var m := FirstLineBreak(s[1..]);
      assert s[..m + 1] == [s[0]] + s[1..][..m];
      1 + m
  }

  /**
    * Python's `str.splitlines()`: "\r\n" is one boundary, and a boundary
    * at the very end does not open an empty last line.
    */
  function SplitLines(s: string): (r: seq<string>)
    ensures forall k :: 0 <= k < |r| ==> NoLineBreak(r[k])
    ensures s == [] <==> r == []
    decreases |s|
  {
    if s == [] then []
    else
      var i := FirstLineBreak(s);
      if i == |s| then [s]
      else
        var width := if s[i] == '\r' && i + 1 < |s| && s[i + 1] == '\n' then 2 else 1;
        [s[..i]] + SplitLines(s[i + width..])
  }

  function DigitChar(d: nat): (c: char)
    requires d < 10
    ensures '0' <= c <= '9'
  {
    ('0' as int + d) as char
  }

  /** Decimal digits of `n`, as Python's `str(n)` writes them. */
  function NatToString(n: nat): (r: string)
    ensures |r| >= 1
    ensures forall k :: 0 <= k < |r| ==> '0' <= r[k] <= '9'
    decreases n
  {
    if n < 10 then [DigitChar(n)] else NatToString(n / 10) + [DigitChar(n % 10)]
  }

  /** Python's `str(n)` / f-string rendering of an integer. */
  function IntToString(n: int): string {
    if n < 0 then "-" + NatToString(-n) else NatToString(n)
  }

  /** The value a string of decimal digits denotes. */
  function DigitsValue(s: string): int
    decreases |s|
  {
    if s == [] then 0 else DigitsValue(s[..|s| - 1]) * 10 + (s[|s| - 1] as int - '0' as int)
  }

  /** Rendering an integer in decimal loses nothing: the digits read back as the number. */
  lemma {:induction false} NatToStringValue(n: nat)
    ensures DigitsValue(NatToString(n)) == n
    decreases n
  {
    if n >= 10 {
      NatToStringValue(n / 10);
      var s := NatToString(n);
      assert s[..|s| - 1] == NatToString(n / 10);
    }
  }

  /** Three digits with leading zeros. */
  function Pad3(k: nat): string
    requires k < 1000
  {
    [DigitChar(k / 100), DigitChar(k / 10 % 10), DigitChar(k % 10)]
  }

  /** Python's `format(n, ",")`: decimal digits grouped by thousands. */
  function Grouped(n: nat): string
    decreases n
  {
    if n < 1000 then NatToString(n) else Grouped(n / 1000) + "," + Pad3(n % 1000)
  }

  /** The value of a run of digits that may carry thousands separators. */
  function GroupedDigitsValue(s: string): int
    decreases |s|
  {
    if s == [] then 0
    else if s[|s| - 1] == ',' then GroupedDigitsValue(s[..|s| - 1])
    else GroupedDigitsValue(s[..|s| - 1]) * 10 + (s[|s| - 1] as int - '0' as int)
  }

  lemma {:induction false} PlainDigitsValue(s: string)
    requires forall k :: 0 <= k < |s| ==> '0' <= s[k] <= '9'
    ensures GroupedDigitsValue(s) == DigitsValue(s)
    decreases |s|
  {
    if s != [] {
      PlainDigitsValue(s[..|s| - 1]);
    }
  }

  /** Appending ",ddd" multiplies the value read so far by 1000 and adds the three digits. */
  lemma GroupAppended(a: string, k: nat)
    requires k < 1000
    ensures GroupedDigitsValue(a + "," + Pad3(k)) == GroupedDigitsValue(a) * 1000 + k
  {
    var p := Pad3(k);
    var s := a + "," + p;
    assert s[..|s| - 1] == a + "," + p[..2];
    assert (a + "," + p[..2])[..|s| - 2] == a + "," + p[..1];
    assert (a + "," + p[..1])[..|s| - 3] == a + ",";
    assert (a + ",")[..|a|] == a;
    var v := GroupedDigitsValue(a);
    assert GroupedDigitsValue(a + ",") == v;
    assert GroupedDigitsValue(a + "," + p[..1]) == v * 10 + k / 100;
    assert GroupedDigitsValue(a + "," + p[..2]) == (v * 10 + k / 100) * 10 + k / 10 % 10;
    assert GroupedDigitsValue(s) == ((v * 10 + k / 100) * 10 + k / 10 % 10) * 10 + k % 10;
    assert k == k / 100 * 100 + k / 10 % 10 * 10 + k % 10;
  }

  /** The grouped rendering reads back as the number it renders. */
  lemma {:induction false} GroupedReadsBack(n: nat)
    ensures GroupedDigitsValue(Grouped(n)) == n
    decreases n
  {
    if n < 1000 {
      PlainDigitsValue(NatToString(n));
      NatToStringValue(n);
    } else {
      GroupedReadsBack(n / 1000);
      GroupAppended(Grouped(n / 1000), n % 1000);
    }
  }

  /** Python's `<` on `str`: code point by code point. */
  predicate Below(a: string, b: string)
    decreases |a|
  {
    if a == [] then b != []
    else if b == [] then false
    else if a[0] != b[0] then a[0] < b[0]
    else Below(a[1..], b[1..])
  }

  predicate AtMost(a: string, b: string) {
    a == b || Below(a, b)
  }

  lemma {:induction false} BelowTotal(a: string, b: string)
    ensures a == b || Below(a, b) || Below(b, a)
    decreases |a|
  {
    if a != [] && b != [] && a[0] == b[0] {
      BelowTotal(a[1..], b[1..]);
      assert a == [a[0]] + a[1..] && b == [b[0]] + b[1..];
    }
  }

  predicate Sorted(s: seq<string>) {
    forall i :: 0 < i < |s| ==> AtMost(s[i - 1], s[i])
  }

  function Insert(x: string, s: seq<string>): (r: seq<string>)
    requires Sorted(s)
    ensures Sorted(r)
    ensures multiset(r) == multiset(s) + multiset{x}
    ensures r != [] && (r[0] == x || (s != [] && r[0] == s[0]))
    decreases |s|
  {
    if s == [] || AtMost(x, s[0]) then
      [x] + s
    else
      BelowTotal(x, s[0]);
      var tail := Insert(x, s[1..]);
      assert s == [s[0]] + s[1..];
      [s[0]] + tail
  }

  /** Python's `sorted()` on a list of strings. */
  function SortStrings(s: seq<string>): (r: seq<string>)
    ensures Sorted(r)
    ensures multiset(r) == multiset(s)
    decreases |s|
  {
    if s == [] then []
    else
      var r := Insert(s[|s| - 1], SortStrings(s[..|s| - 1]));
      assert s == s[..|s| - 1] + [s[|s| - 1]];
      r
  }
}
