/**
  * Reading artifacts (src/relay/protocol/artifacts.py): the files agents
  * hand to each other, capped at a character budget.  The artifact
  * directory is a map from file name to content; a name that is not a key
  * is a file that does not exist.
  */
module Artifacts {
  import opened Wrappers
  import opened Dicts
  import Text

  const DefaultMaxChars: nat := 50000

  type Files = map<string, string>

  /** The marker appended to truncated content. */
  function TruncationMarker(remaining: nat): string {
    "\n\n[... truncated, " + Text.Grouped(remaining) + " chars remaining]"
  }

  /**
    * Python's `s[:n]`: the first `n` characters for a non-negative `n`
    * (all of `s` when `n` exceeds its length), and for a negative `n` all
    * but the last `-n` (nothing when `-n` exceeds the length).
    */
  function SliceTo(s: string, n: int): (r: string)
    ensures |r| <= |s| && r == s[..|r|]
    ensures 0 <= n ==> |r| == if n <= |s| then n else |s|
    ensures n < 0 ==> |r| == if |s| + n >= 0 then |s| + n else 0
  {
    if 0 <= n then (if n <= |s| then s[..n] else s)
    else if |s| + n >= 0 then s[..|s| + n]
    else []
  }

  /**
    * `read_artifact`: "" for a missing file, the content when it fits the
    * budget, and otherwise `content[:max_chars]` followed by a marker
    * counting `len(content) - max_chars`.  Nothing stops the budget from
    * being negative; the slice then counts from the end.
    */
  function ReadArtifact(files: Files, name: string, maxChars: int): (r: string)
    ensures name !in files ==> r == ""
    ensures name in files && |files[name]| <= maxChars ==> r == files[name]
    ensures name in files ==> Text.StartsWith(r, SliceTo(files[name], maxChars))
    ensures name in files && |files[name]| > maxChars ==>
      r == SliceTo(files[name], maxChars) + TruncationMarker(|files[name]| - maxChars)
  {
    if name !in files then ""
    else
      var content := files[name];
      if |content| <= maxChars then content
      else
        var kept := SliceTo(content, maxChars);
        var r := kept + TruncationMarker(|content| - maxChars);
        assert r[..|kept|] == kept;
        r
  }

  /**
    * The marker tells exactly how much was dropped: the grouped number it
    * shows reads back as the content length minus the budget.
    */
  lemma MarkerCountsDropped(files: Files, name: string, maxChars: int)
    requires name in files && 0 <= maxChars < |files[name]|
    ensures ReadArtifact(files, name, maxChars)
      == files[name][..maxChars] + TruncationMarker(|files[name]| - maxChars)
    ensures Text.GroupedDigitsValue(Text.Grouped(|files[name]| - maxChars)) + maxChars == |files[name]|
  {
    Text.GroupedReadsBack(|files[name]| - maxChars);
  }

  /**
    * A negative budget keeps all but the last `-max_chars` characters, yet
    * the marker counts `len(content) - max_chars`, which is the content's
    * length more than was dropped.
    */
  lemma NegativeBudget(files: Files, name: string, maxChars: int)
    requires name in files && maxChars < 0 && |files[name]| + maxChars >= 0
    ensures ReadArtifact(files, name, maxChars)
      == files[name][..|files[name]| + maxChars] + TruncationMarker(|files[name]| - maxChars)
    ensures Text.GroupedDigitsValue(Text.Grouped(|files[name]| - maxChars)) == -maxChars + |files[name]|
  {
    Text.GroupedReadsBack(|files[name]| - maxChars);
  }

  /** A name `read_artifacts` reads: no glob character, and the file exists. */
  predicate Readable(files: Files, name: string) {
    '*' !in name && name in files
  }

  /** Position of the first occurrence of `x` in `names`. */
  function FirstIndex(names: seq<string>, x: string): (i: nat)
    ensures i <= |names|
    ensures i < |names| ==> names[i] == x
    ensures forall j :: 0 <= j < i ==> names[j] != x
    ensures i < |names| <==> x in names
    decreases |names|
  {
    if names == [] then 0
    else if names[0] == x then 0
    else 1 + FirstIndex(names[1..], x)
  }

  /**
    * The keys `read_artifacts` has after looking at the first `k` names:
    * the readable ones among them, once each, in first-request order.
    */
  ghost predicate KeysSoFar(files: Files, names: seq<string>, k: nat, result: Dict<string>)
    requires k <= |names|
  {
    && DistinctKeys(result)
    && (forall x :: HasKey(result, x) <==> x in names[..k] && Readable(files, x))
    && (forall i :: 0 <= i < |result| ==> FirstIndex(names, result[i].0) < k)
    && (forall i, j :: 0 <= i < j < |result| ==> FirstIndex(names, result[i].0) < FirstIndex(names, result[j].0))
  }

  /** What `read_artifacts` has built after looking at the first `k` names. */
  ghost predicate ReadSoFar(files: Files, names: seq<string>, maxChars: int, k: nat, result: Dict<string>)
    requires k <= |names|
  {
    && KeysSoFar(files, names, k, result)
    && (forall x :: HasKey(result, x) ==> Get(result, x) == Some(ReadArtifact(files, x, maxChars)))
  }

  /** Looking at name `k` keeps `ReadSoFar`, whether the name is skipped, new or seen before. */
  lemma ReadStep(files: Files, names: seq<string>, maxChars: int, k: nat, result: Dict<string>)
    requires k < |names| && ReadSoFar(files, names, maxChars, k, result)
    ensures ReadSoFar(files, names, maxChars, k + 1,
      if Readable(files, names[k]) then Put(result, names[k], ReadArtifact(files, names[k], maxChars)) else result)
  {
    assert names[..k + 1] == names[..k] + [names[k]];
    if Readable(files, names[k]) {
      var content := ReadArtifact(files, names[k], maxChars);
      if HasKey(result, names[k]) {
        ReadSeen(files, names, k, result, content);
      } else {
        ReadNew(files, names, k, result, content);
      }
    }
  }

  /** A readable name read for the first time goes last, after every name read before it. */
  lemma ReadNew(files: Files, names: seq<string>, k: nat, result: Dict<string>, content: string)
    requires k < |names| && KeysSoFar(files, names, k, result)
    requires Readable(files, names[k]) && !HasKey(result, names[k])
    ensures KeysSoFar(files, names, k + 1, Put(result, names[k], content))
  {
    var name := names[k];
    var next := Put(result, name, content);
    assert names[..k + 1] == names[..k] + [name];
    assert FirstIndex(names, name) == k;
    assert Keys(next) == Keys(result) + [name];
    assert forall i :: 0 <= i < |result| ==> next[i].0 == result[i].0 by {
      assert forall i :: 0 <= i < |result| ==> Keys(next)[i] == Keys(result)[i];
    }
    assert next[|result|].0 == name by {
      assert Keys(next)[|result|] == name;
    }
  }

  /** A name read before keeps its place when its content is stored again. */
  lemma ReadSeen(files: Files, names: seq<string>, k: nat, result: Dict<string>, content: string)
    requires k < |names| && KeysSoFar(files, names, k, result)
    requires Readable(files, names[k]) && HasKey(result, names[k])
    ensures KeysSoFar(files, names, k + 1, Put(result, names[k], content))
  {
    var name := names[k];
    var next := Put(result, name, content);
    assert names[..k + 1] == names[..k] + [name];
    assert Keys(next) == Keys(result);
    assert forall i :: 0 <= i < |result| ==> next[i].0 == result[i].0 by {
      assert forall i :: 0 <= i < |result| ==> Keys(next)[i] == Keys(result)[i];
    }
  }

  /** In a key list ordered by first request, the head is requested no later than any other key. */
  lemma HeadFirstRequested(names: seq<string>, a: seq<string>, x: string)
    requires forall i, j :: 0 <= i < j < |a| ==> FirstIndex(names, a[i]) < FirstIndex(names, a[j])
    requires x in a
    ensures FirstIndex(names, a[0]) <= FirstIndex(names, x)
  {
    var i :| 0 <= i < |a| && a[i] == x;
  }

  lemma HeadIn(b: seq<string>)
    ensures b != [] ==> b[0] in b
  {
  }

  /** Two ordered key lists with the same names and the same head hold the same names after it. */
  lemma SameTails(names: seq<string>, a: seq<string>, b: seq<string>)
    requires a != [] && b != [] && a[0] == b[0]
    requires forall x :: x in a <==> x in b
    requires forall i, j :: 0 <= i < j < |a| ==> FirstIndex(names, a[i]) < FirstIndex(names, a[j])
    requires forall i, j :: 0 <= i < j < |b| ==> FirstIndex(names, b[i]) < FirstIndex(names, b[j])
    ensures forall x :: x in a[1..] <==> x in b[1..]
  {
    forall x | x in a[1..]
      ensures x in b[1..]
    {
      var i :| 1 <= i < |a| && a[i] == x;
      assert a[i] in a;
      var j :| 0 <= j < |b| && b[j] == x;
      assert j != 0 by {
        assert FirstIndex(names, a[0]) < FirstIndex(names, a[i]);
      }
      assert b[1..][j - 1] == x;
    }
    forall x | x in b[1..]
      ensures x in a[1..]
    {
      var j :| 1 <= j < |b| && b[j] == x;
      assert b[j] in b;
      var i :| 0 <= i < |a| && a[i] == x;
      assert i != 0 by {
        assert FirstIndex(names, b[0]) < FirstIndex(names, b[j]);
      }
      assert a[1..][i - 1] == x;
    }
  }

  /** Two key lists ordered by first request and holding the same requested names are the same list. */
  lemma {:induction false} OrderedKeysUnique(names: seq<string>, a: seq<string>, b: seq<string>)
    requires forall x :: x in a <==> x in b
    requires forall x :: x in a ==> x in names
    requires forall i, j :: 0 <= i < j < |a| ==> FirstIndex(names, a[i]) < FirstIndex(names, a[j])
    requires forall i, j :: 0 <= i < j < |b| ==> FirstIndex(names, b[i]) < FirstIndex(names, b[j])
    ensures a == b
    decreases |a|
  {
    if a == [] {
      HeadIn(b);
    } else {
      assert a[0] in a;
      assert b != [] && b[0] in b;
      HeadFirstRequested(names, a, b[0]);
      HeadFirstRequested(names, b, a[0]);
      assert a[0] == b[0] by {
        assert a[0] == names[FirstIndex(names, a[0])];
        assert b[0] == names[FirstIndex(names, b[0])];
      }
      SameTails(names, a, b);
      assert forall x :: x in a[1..] ==> x in a;
      OrderedKeysUnique(names, a[1..], b[1..]);
    }
  }

  /**
    * What `read_artifacts` returns is fully determined: two dicts that
    * both meet its description are equal, entries and order alike.
    */
  lemma ReadsDetermined(files: Files, names: seq<string>, maxChars: int, a: Dict<string>, b: Dict<string>)
    requires ReadSoFar(files, names, maxChars, |names|, a)
    requires ReadSoFar(files, names, maxChars, |names|, b)
    ensures a == b
  {
    assert names[..|names|] == names;
    forall x
      ensures x in Keys(a) <==> x in Keys(b)
    {
      assert HasKey(a, x) <==> HasKey(b, x);
    }
    forall x | x in Keys(a)
      ensures x in names
    {
      assert HasKey(a, x);
    }
    OrderedKeysUnique(names, Keys(a), Keys(b));
    assert |a| == |b|;
    forall i | 0 <= i < |a|
      ensures a[i] == b[i]
    {
      var k := a[i].0;
      assert Keys(a)[i] == k && Keys(b)[i] == k;
      assert Find(a, k) == i by {
        assert forall m :: 0 <= m < i ==> a[m].0 != k;
      }
      assert Find(b, k) == i by {
        assert forall m :: 0 <= m < i ==> b[m].0 != k;
      }
      assert HasKey(a, k) && HasKey(b, k);
      assert Get(a, k) == Get(b, k);
    }
  }

  /**
    * `read_artifacts`: the readable names, each with its possibly
    * truncated content, in the order the names first occur.
    */
  method ReadArtifacts(files: Files, names: seq<string>, maxChars: int) returns (result: Dict<string>)
    ensures DistinctKeys(result)
    ensures forall x :: HasKey(result, x) <==> x in names && Readable(files, x)
    ensures forall x :: HasKey(result, x) ==> Get(result, x) == Some(ReadArtifact(files, x, maxChars))
    ensures forall i, j :: 0 <= i < j < |result| ==> FirstIndex(names, result[i].0) < FirstIndex(names, result[j].0)
    ensures ReadSoFar(files, names, maxChars, |names|, result)
  {
    result := [];
    for k := 0 to |names|
      invariant ReadSoFar(files, names, maxChars, k, result)
    {
      ReadStep(files, names, maxChars, k, result);
      var name := names[k];
      if '*' in name {
        continue;
      }
      if name in files {
        result := Put(result, name, ReadArtifact(files, name, maxChars));
      }
    }
    assert names[..|names|] == names;
  }
}
