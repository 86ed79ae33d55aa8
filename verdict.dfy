/**
  * `extract_verdict` (src/relay/protocol/state.py): the verdict a reviewer
  * wrote into a markdown artifact.  The source searches the content with
  * the multi-line, case-insensitive pattern
  *   ^ # #? \s* FIELD \s* [:：] \s* (.+) $
  * This module states what a match of that pattern is (`IsMatch`), computes
  * the match `re.search` finds with the backtracking order of its greedy
  * parts (`Search`), and proves the two agree.  Case-insensitivity covers
  * ASCII letters only.
  */
module Verdict {
  import opened Wrappers
  import Text

  datatype Verdict = Approve | Reject {
    /** The string `extract_verdict` returns. */
    function Name(): string {
      match this
      case Approve => "approve"
      case Reject => "reject"
    }
  }

  // ----- what a match is -----

  /** `^` under MULTILINE: the start of the content or just after a newline. */
  predicate LineStart(s: string, p: nat) {
    p == 0 || (0 < p <= |s| && s[p - 1] == '\n')
  }

  /** `s[i..j]` is matched by `\s*`. */
  predicate WsRun(s: string, i: nat, j: nat) {
    i <= j <= |s| && forall k :: i <= k < j ==> Text.IsSpace(s[k])
  }

  predicate IsColon(c: char) {
    c == ':' || c == '\U{FF1A}'
  }

  /** The field name occurs at `a`, ignoring case. */
  predicate FieldAt(s: string, f: string, a: nat) {
    a + |f| <= |s| && Text.Lower(s[a..a + |f|]) == Text.Lower(f)
  }

  /** `(.+)` can start at `c`: `.` matches anything but a newline. */
  predicate ValueAt(s: string, c: nat) {
    c < |s| && s[c] != '\n'
  }

  /**
    * The pattern matches from `p`: the hashes end at `h`, the field starts
    * at `a`, the separator sits at `b` and the capture starts at `c` (it
    * then runs to the end of its line, since `.+` is greedy and `$` holds
    * before any newline).
    */
  predicate IsMatch(s: string, f: string, p: nat, h: nat, a: nat, b: nat, c: nat) {
    && p < |s| && s[p] == '#'
    && (h == p + 1 || (h == p + 2 && p + 1 < |s| && s[p + 1] == '#'))
    && WsRun(s, h, a) && FieldAt(s, f, a)
    && WsRun(s, a + |f|, b) && b < |s| && IsColon(s[b])
    && WsRun(s, b + 1, c) && ValueAt(s, c)
  }

  ghost predicate MatchesAt(s: string, f: string, p: nat) {
    exists h, a, b, c :: IsMatch(s, f, p, h, a, b, c)
  }

  // ----- how the search finds one -----

  /** Where a greedy `\s*` starting at `i` stops. */
  function SpanSpace(s: string, i: nat): (j: nat)
    requires i <= |s|
    ensures WsRun(s, i, j)
    ensures j < |s| ==> !Text.IsSpace(s[j])
    decreases |s| - i
  {
    if i < |s| && Text.IsSpace(s[i]) then SpanSpace(s, i + 1) else i
  }

  /** Every run of whitespace from `i` ends at or before where the greedy one stops. */
  lemma SpanSpaceLongest(s: string, i: nat, j: nat)
    requires WsRun(s, i, j)
    ensures j <= SpanSpace(s, i)
  {
  }

  /** End of the line holding `c`: the next newline, or the end of the content. */
  function LineEnd(s: string, c: nat): (e: nat)
    requires c <= |s|
    ensures c <= e <= |s|
    ensures e < |s| ==> s[e] == '\n'
    ensures forall k :: c <= k < e ==> s[k] != '\n'
    decreases |s| - c
  {
    if c == |s| || s[c] == '\n' then c else LineEnd(s, c + 1)
  }

  /** Backtracking a `\s*` that ran to `m`: the last position before `m` where `.` can match. */
  function LastValue(s: string, i: nat, m: nat): (r: Option<nat>)
    requires i <= m <= |s|
    ensures r.Some? ==> i <= r.value < m && ValueAt(s, r.value)
    ensures r.Some? ==> forall k :: r.value < k < m ==> !ValueAt(s, k)
    ensures r.None? ==> forall k :: i <= k < m ==> !ValueAt(s, k)
    decreases m - i
  {
    if m == i then None
    else if s[m - 1] != '\n' then Some(m - 1)
    else LastValue(s, i, m - 1)
  }

  /**
    * Where `\s*(.+)` starts its capture when tried from `i`: the longest
    * run of whitespace that still leaves `.` something to match.
    */
  function ValueStart(s: string, i: nat): (r: Option<nat>)
    requires i <= |s|
    ensures r.Some? ==> WsRun(s, i, r.value) && ValueAt(s, r.value)
    ensures r.Some? ==> forall c: nat :: WsRun(s, i, c) && ValueAt(s, c) ==> c <= r.value
    ensures r.None? ==> forall c: nat :: !(WsRun(s, i, c) && ValueAt(s, c))
  {
    var m := SpanSpace(s, i);
    assert forall c: nat :: WsRun(s, i, c) ==> c <= m by {
      forall c: nat | WsRun(s, i, c) ensures c <= m {
        SpanSpaceLongest(s, i, c);
      }
    }
    if m < |s| then Some(m) else LastValue(s, i, m)
  }

  /** The rest of the pattern once the field is tried at `a`. */
  function AfterField(s: string, f: string, a: nat): (r: Option<nat>)
    requires a <= |s|
    ensures r.Some? ==> r.value < |s|
  {
    if !FieldAt(s, f, a) then None
    else
      var b := SpanSpace(s, a + |f|);
      if b < |s| && IsColon(s[b]) then ValueStart(s, b + 1) else None
  }

  lemma AfterFieldSound(s: string, f: string, a: nat)
    requires a <= |s| && AfterField(s, f, a).Some?
    ensures FieldAt(s, f, a)
    ensures exists b: nat :: (WsRun(s, a + |f|, b) && b < |s| && IsColon(s[b])
      && WsRun(s, b + 1, AfterField(s, f, a).value) && ValueAt(s, AfterField(s, f, a).value))
  {
    var b := SpanSpace(s, a + |f|);
    assert WsRun(s, a + |f|, b);
  }

  lemma AfterFieldComplete(s: string, f: string, a: nat, b: nat, c: nat)
    requires a <= |s| && FieldAt(s, f, a)
    requires WsRun(s, a + |f|, b) && b < |s| && IsColon(s[b])
    requires WsRun(s, b + 1, c) && ValueAt(s, c)
    ensures AfterField(s, f, a).Some?
  {
    var m := SpanSpace(s, a + |f|);
    SpanSpaceLongest(s, a + |f|, b);
    assert m == b;
  }

  /** `\s*` before the field, tried from its longest run `a` down to none at `h`. */
  function TryField(s: string, f: string, h: nat, a: nat): (r: Option<nat>)
    requires h <= a <= |s|
    ensures r.Some? ==> r.value < |s|
    decreases a - h
  {
    var here := AfterField(s, f, a);
    if here.Some? then here
    else if a == h then None
    else TryField(s, f, h, a - 1)
  }

  lemma {:induction false} TryFieldSound(s: string, f: string, h: nat, a: nat)
    requires h <= a <= |s| && WsRun(s, h, a) && TryField(s, f, h, a).Some?
    ensures exists a': nat, b: nat :: (h <= a' <= a && WsRun(s, h, a') && FieldAt(s, f, a')
      && WsRun(s, a' + |f|, b) && b < |s| && IsColon(s[b])
      && WsRun(s, b + 1, TryField(s, f, h, a).value) && ValueAt(s, TryField(s, f, h, a).value))
    decreases a - h
  {
    if AfterField(s, f, a).Some? {
      AfterFieldSound(s, f, a);
    } else {
      TryFieldSound(s, f, h, a - 1);
    }
  }

  lemma {:induction false} TryFieldComplete(s: string, f: string, h: nat, a: nat, a': nat, b: nat, c: nat)
    requires h <= a' <= a <= |s|
    requires FieldAt(s, f, a') && WsRun(s, a' + |f|, b) && b < |s| && IsColon(s[b])
    requires WsRun(s, b + 1, c) && ValueAt(s, c)
    ensures TryField(s, f, h, a).Some?
    decreases a - h
  {
    if a == a' {
      AfterFieldComplete(s, f, a', b, c);
    } else if AfterField(s, f, a).None? {
      TryFieldComplete(s, f, h, a - 1, a', b, c);
    }
  }

  /** The pattern tried at `p`: two hashes first when there are two, then one. */
  function MatchAt(s: string, f: string, p: nat): (r: Option<nat>)
    requires p <= |s|
    ensures r.Some? ==> r.value < |s|
  {
    if p < |s| && s[p] == '#' then
      var two := if p + 1 < |s| && s[p + 1] == '#' then TryField(s, f, p + 2, SpanSpace(s, p + 2)) else None;
      if two.Some? then two else TryField(s, f, p + 1, SpanSpace(s, p + 1))
    else None
  }

  /** What `MatchAt` finds is a match, and its capture starts where it says. */
  lemma MatchAtSound(s: string, f: string, p: nat)
    requires p <= |s| && MatchAt(s, f, p).Some?
    ensures exists h, a, b :: IsMatch(s, f, p, h, a, b, MatchAt(s, f, p).value)
  {
    var c := MatchAt(s, f, p).value;
    if p + 1 < |s| && s[p + 1] == '#' && TryField(s, f, p + 2, SpanSpace(s, p + 2)).Some? {
      TryFieldSound(s, f, p + 2, SpanSpace(s, p + 2));
      var a: nat, b: nat :| p + 2 <= a <= SpanSpace(s, p + 2) && WsRun(s, p + 2, a) && FieldAt(s, f, a)
        && WsRun(s, a + |f|, b) && b < |s| && IsColon(s[b]) && WsRun(s, b + 1, c) && ValueAt(s, c);
      assert IsMatch(s, f, p, p + 2, a, b, c);
    } else {
      TryFieldSound(s, f, p + 1, SpanSpace(s, p + 1));
      var a: nat, b: nat :| p + 1 <= a <= SpanSpace(s, p + 1) && WsRun(s, p + 1, a) && FieldAt(s, f, a)
        && WsRun(s, a + |f|, b) && b < |s| && IsColon(s[b]) && WsRun(s, b + 1, c) && ValueAt(s, c);
      assert IsMatch(s, f, p, p + 1, a, b, c);
    }
  }

  /** Whenever the pattern can match at `p`, `MatchAt` finds a match there. */
  lemma MatchAtComplete(s: string, f: string, p: nat)
    requires p <= |s| && MatchesAt(s, f, p)
    ensures MatchAt(s, f, p).Some?
  {
    var h, a, b, c :| IsMatch(s, f, p, h, a, b, c);
    MatchAtFrom(s, f, p, h, a, b, c);
  }

  lemma MatchAtFrom(s: string, f: string, p: nat, h: nat, a: nat, b: nat, c: nat)
    requires IsMatch(s, f, p, h, a, b, c)
    ensures MatchAt(s, f, p).Some?
  {
    SpanSpaceLongest(s, h, a);
    TryFieldComplete(s, f, h, SpanSpace(s, h), a, b, c);
  }

  /** `re.search`: the first line start at or after `p` where the pattern matches, with its capture start. */
  function Search(s: string, f: string, p: nat): (r: Option<(nat, nat)>)
    requires p <= |s|
    ensures r.Some? ==> p <= r.value.0 <= |s| && r.value.1 < |s| && LineStart(s, r.value.0)
    ensures r.Some? ==> MatchAt(s, f, r.value.0) == Some(r.value.1)
    ensures r.Some? ==> forall q :: p <= q < r.value.0 && LineStart(s, q) ==> MatchAt(s, f, q).None?
    ensures r.None? ==> forall q :: p <= q <= |s| && LineStart(s, q) ==> MatchAt(s, f, q).None?
    decreases |s| - p
  {
    if LineStart(s, p) && MatchAt(s, f, p).Some? then Some((p, MatchAt(s, f, p).value))
    else if p == |s| then None
    else Search(s, f, p + 1)
  }

  /**
    * The search and the pattern agree: what is found is a match at a line
    * start, no earlier line start matches, and nothing is found only when
    * no line start matches.
    */
  lemma SearchFindsFirstMatch(s: string, f: string)
    ensures Search(s, f, 0).Some? ==>
      var (p, c) := Search(s, f, 0).value;
      && LineStart(s, p)
      && (exists h, a, b :: IsMatch(s, f, p, h, a, b, c))
      && forall q :: 0 <= q < p && LineStart(s, q) ==> !MatchesAt(s, f, q)
    ensures Search(s, f, 0).None? ==>
      forall q :: 0 <= q <= |s| && LineStart(s, q) ==> !MatchesAt(s, f, q)
  {
    var r := Search(s, f, 0);
    forall q | 0 <= q <= |s| && LineStart(s, q) && MatchesAt(s, f, q)
      ensures r.Some? && r.value.0 <= q
    {
      MatchAtComplete(s, f, q);
    }
    if r.Some? {
      MatchAtSound(s, f, r.value.0);
    }
  }

  // ----- the verdict -----

  /** The captured text: from `c` to the end of its line. */
  function Capture(s: string, c: nat): string
    requires c <= |s|
  {
    s[c..LineEnd(s, c)]
  }

  /** `match.group(1).strip().upper()` of the first match, if any. */
  function VerdictValue(content: string, field: string): (r: Option<string>)
    ensures r.Some? <==> Search(content, field, 0).Some?
  {
    match Search(content, field, 0)
    case Some((p, c)) => Some(Text.Upper(Text.Strip(Capture(content, c))))
    case None => None
  }

  /**
    * `extract_verdict`: approval is tested before rejection, each by
    * containment of the upper-cased expected value in the matched value.
    */
  function ExtractVerdict(content: string, field: string, approveValue: string, rejectValue: string): (r: Option<Verdict>)
    ensures VerdictValue(content, field).None? ==> r.None?
    ensures r == Some(Approve) <==>
      VerdictValue(content, field).Some? && Text.Contains(VerdictValue(content, field).value, Text.Upper(approveValue))
    ensures r == Some(Reject) <==>
      && VerdictValue(content, field).Some?
      && !Text.Contains(VerdictValue(content, field).value, Text.Upper(approveValue))
      && Text.Contains(VerdictValue(content, field).value, Text.Upper(rejectValue))
  {
    match VerdictValue(content, field)
    case None => None
    case Some(v) =>
      if Text.Contains(v, Text.Upper(approveValue)) then Some(Approve)
      else if Text.Contains(v, Text.Upper(rejectValue)) then Some(Reject)
      else None
  }

  /** Content with no `#` at all holds no verdict. */
  lemma NoHeadingNoVerdict(content: string, field: string, approveValue: string, rejectValue: string)
    requires forall i :: 0 <= i < |content| ==> content[i] != '#'
    ensures ExtractVerdict(content, field, approveValue, rejectValue).None?
  {
    if Search(content, field, 0).Some? {
      var (p, c) := Search(content, field, 0).value;
      MatchAtSound(content, field, p);
    }
  }
}
