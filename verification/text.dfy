/** The JavaScript string operations the app relies on: `trim`, `split` on
    single separator characters, and `join`. */
module Text {
  import opened Seqs

  /** The white-space and line-terminator code points that JavaScript's
      `String.prototype.trim` removes. */
  predicate IsSpace(c: char) {
    var n := c as int;
    || n == 0x09 || n == 0x0A || n == 0x0B || n == 0x0C || n == 0x0D || n == 0x20
    || n == 0xA0 || n == 0x1680 || (0x2000 <= n <= 0x200A) || n == 0x2028 || n == 0x2029
    || n == 0x202F || n == 0x205F || n == 0x3000 || n == 0xFEFF
  }

  /** Every character is white space (so the empty string is blank). */
  predicate Blank(s: string) {
    forall k :: 0 <= k < |s| ==> IsSpace(s[k])
  }

  /** Neither begins nor ends with white space. */
  predicate Trimmed(s: string) {
    s == [] || (!IsSpace(s[0]) && !IsSpace(s[|s| - 1]))
  }

  predicate NonEmpty(s: string) {
    s != []
  }

  /** No character of `s` is one of `cs`. */
  predicate Avoids(s: string, cs: set<char>) {
    forall k :: 0 <= k < |s| ==> s[k] !in cs
  }

  /** The index of the first non-space character at or after `from`, or `|s|`. */
  function SkipSpaces(s: string, from: nat): (i: nat)
    requires from <= |s|
    ensures from <= i <= |s|
    ensures forall k :: from <= k < i ==> IsSpace(s[k])
    ensures i < |s| ==> !IsSpace(s[i])
    decreases |s| - from
  {
    if from == |s| || !IsSpace(s[from]) then from else SkipSpaces(s, from + 1)
  }

  /** The end of `s[lo..hi]` once its trailing white space is dropped. */
  function DropTrailingSpaces(s: string, lo: nat, hi: nat): (j: nat)
    requires lo <= hi <= |s|
    ensures lo <= j <= hi
    ensures forall k :: j <= k < hi ==> IsSpace(s[k])
    ensures j > lo ==> !IsSpace(s[j - 1])
    decreases hi
  {
    if hi == lo || !IsSpace(s[hi - 1]) then hi else DropTrailingSpaces(s, lo, hi - 1)
  }

  /** `r` is `s` with the blank prefix `s[..i]` and a blank suffix cut away. */
  predicate StripsTo(s: string, i: nat, r: string) {
    && i + |r| <= |s|
    && r == s[i..i + |r|]
    && Blank(s[..i])
    && Blank(s[i + |r|..])
  }

  /** `s.trim()`. */
  function Trim(s: string): (r: string)
    ensures Trimmed(r)
    ensures exists i: nat :: StripsTo(s, i, r)
    ensures r == [] <==> Blank(s)
  {
    var i := SkipSpaces(s, 0);
    var j := DropTrailingSpaces(s, i, |s|);
    assert StripsTo(s, i, s[i..j]);
    s[i..j]
  }

  lemma TrimmedIsFixed(s: string)
    requires Trimmed(s)
    ensures Trim(s) == s
  {
  }

  lemma BlankConcat(a: string, b: string)
    ensures Blank(a + b) <==> Blank(a) && Blank(b)
  {
    assert forall k :: 0 <= k < |a| ==> (a + b)[k] == a[k];
    assert forall k :: 0 <= k < |b| ==> (a + b)[|a| + k] == b[k];
  }

  /** `trim` is determined by its contract: a non-empty trimmed string that is
      `s` minus a blank prefix and a blank suffix is `s.trim()`. */
  lemma TrimUnique(s: string, i: nat, r: string)
    requires StripsTo(s, i, r) && Trimmed(r) && r != []
    ensures Trim(s) == r
  {
    var i0 := SkipSpaces(s, 0);
    assert s[i] == r[0];
    assert forall k :: 0 <= k < i ==> s[k] == s[..i][k];
    assert i0 == i;
    var j0 := DropTrailingSpaces(s, i, |s|);
    var j := i + |r|;
    assert s[j - 1] == r[|r| - 1];
    assert forall k :: j <= k < |s| ==> s[k] == s[j..][k - j];
    assert j0 == j;
  }

  /** Leading white space never survives `trim`. */
  lemma TrimLeadingSpace(c: char, s: string)
    requires IsSpace(c)
    ensures Trim([c] + s) == Trim(s)
  {
    var r := Trim(s);
    BlankConcat([c], s);
    if r != [] {
      var i: nat :| StripsTo(s, i, r);
      StripsToCons(c, s, i, r);
      TrimUnique([c] + s, i + 1, r);
    }
  }

  /** One more blank character in front moves the kept part by one. */
  lemma StripsToCons(c: char, s: string, i: nat, r: string)
    requires IsSpace(c) && StripsTo(s, i, r)
    ensures StripsTo([c] + s, i + 1, r)
  {
    assert ([c] + s)[i + 1..i + 1 + |r|] == s[i..i + |r|];
    assert ([c] + s)[..i + 1] == [c] + s[..i];
    BlankConcat([c], s[..i]);
    assert ([c] + s)[i + 1 + |r|..] == s[i + |r|..];
  }

  /** A trimmed string keeps no characters that `s` did not have. */
  lemma TrimAvoids(s: string, cs: set<char>)
    requires Avoids(s, cs)
    ensures Avoids(Trim(s), cs)
  {
    var i: nat :| StripsTo(s, i, Trim(s));
    assert forall k :: 0 <= k < |Trim(s)| ==> Trim(s)[k] == s[i + k];
  }

  /** `s.split(sep)` where `sep` matches exactly the characters in `seps`:
      the maximal pieces between separator characters, empty ones included. */
  function Split(s: string, seps: set<char>): (r: seq<string>)
    ensures |r| >= 1
    ensures forall i :: 0 <= i < |r| ==> Avoids(r[i], seps)
    decreases |s|
  {
    if s == [] then [[]]
    else
      var rest := Split(s[1..], seps);
      if s[0] in seps then [[]] + rest
      else [[s[0]] + rest[0]] + rest[1..]
  }

  /** `indexOf`: the first index at or after `from` holding `c`, or `|s|`. */
  function IndexOf(s: string, c: char, from: nat): (r: nat)
    requires from <= |s|
    ensures from <= r <= |s|
    ensures r < |s| ==> s[r] == c
    ensures forall k :: from <= k < r ==> s[k] != c
    decreases |s| - from
  {
    if from == |s| || s[from] == c then from else IndexOf(s, c, from + 1)
  }

  /** The last index below `upto` holding `c`, or -1. */
  function LastIndexOf(s: string, c: char, upto: nat): (r: int)
    requires upto <= |s|
    ensures -1 <= r < upto
    ensures r >= 0 ==> s[r] == c
    ensures forall k :: r < k < upto ==> s[k] != c
    decreases upto
  {
    if upto == 0 then -1 else if s[upto - 1] == c then upto - 1 else LastIndexOf(s, c, upto - 1)
  }

  /** `xs.join(sep)`. */
  function Join(xs: seq<string>, sep: string): string {
    if |xs| == 0 then []
    else if |xs| == 1 then xs[0]
    else xs[0] + sep + Join(xs[1..], sep)
  }

  /** Splitting on a separator character and joining back with it is the identity. */
  lemma {:induction false} JoinSplit(s: string, c: char)
    ensures Join(Split(s, {c}), [c]) == s
    decreases |s|
  {
    if s != [] {
      var rest := Split(s[1..], {c});
      JoinSplit(s[1..], c);
      if s[0] == c {
        assert Split(s, {c}) == [[]] + rest;
      } else {
        var r := Split(s, {c});
        assert r == [[s[0]] + rest[0]] + rest[1..];
        if |rest| == 1 {
          assert r == [[s[0]] + rest[0]];
        } else {
          assert r[1..] == rest[1..];
        }
      }
    }
  }

  /** A string without separators is a single piece. */
  lemma {:induction false} SplitAvoiding(s: string, seps: set<char>)
    requires Avoids(s, seps)
    ensures Split(s, seps) == [s]
    decreases |s|
  {
    if s != [] {
      SplitAvoiding(s[1..], seps);
      assert [s[0]] + s[1..] == s;
    }
  }

  /** Splitting distributes over one separator character. */
  lemma {:induction false} SplitAtSeparator(a: string, c: char, b: string, seps: set<char>)
    requires c in seps
    ensures Split(a + [c] + b, seps) == Split(a, seps) + Split(b, seps)
    decreases |a|
  {
    if a == [] {
      assert a + [c] + b == [c] + b;
      assert ([c] + b)[1..] == b;
    } else {
      assert (a + [c] + b)[0] == a[0];
      assert (a + [c] + b)[1..] == a[1..] + [c] + b;
      SplitAtSeparator(a[1..], c, b, seps);
    }
  }

  /** `s.split(sep).map(t => t.trim()).filter(Boolean)`. */
  function SplitTrimmed(s: string, seps: set<char>): (r: seq<string>)
    ensures forall i :: 0 <= i < |r| ==> r[i] != [] && Trimmed(r[i]) && Avoids(r[i], seps)
  {
    var pieces := Split(s, seps);
    var trimmed := Map(Trim, pieces);
    assert forall i :: 0 <= i < |trimmed| ==> Avoids(trimmed[i], seps) by {
      forall i | 0 <= i < |trimmed|
        ensures Avoids(trimmed[i], seps)
      {
        TrimAvoids(pieces[i], seps);
      }
    }
    Filter(NonEmpty, trimmed)
  }

  lemma SplitTrimmedAtSeparator(a: string, c: char, b: string, seps: set<char>)
    requires c in seps
    ensures SplitTrimmed(a + [c] + b, seps) == SplitTrimmed(a, seps) + SplitTrimmed(b, seps)
  {
    SplitAtSeparator(a, c, b, seps);
    MapAppend(Trim, Split(a, seps), Split(b, seps));
    FilterAppend(NonEmpty, Map(Trim, Split(a, seps)), Map(Trim, Split(b, seps)));
  }

  lemma SplitTrimmedLeadingSpace(sp: char, s: string, seps: set<char>)
    requires IsSpace(sp) && sp !in seps
    ensures SplitTrimmed([sp] + s, seps) == SplitTrimmed(s, seps)
  {
    var rest := Split(s, seps);
    assert ([sp] + s)[1..] == s;
    assert Split([sp] + s, seps) == [[sp] + rest[0]] + rest[1..];
    TrimLeadingSpace(sp, rest[0]);
    assert Map(Trim, Split([sp] + s, seps)) == Map(Trim, rest);
  }

  /** A trimmed, non-empty string without separators reads back as itself. */
  lemma SplitTrimmedSingle(x: string, seps: set<char>)
    requires x != [] && Trimmed(x) && Avoids(x, seps)
    ensures SplitTrimmed(x, seps) == [x]
  {
    SplitAvoiding(x, seps);
    TrimmedIsFixed(x);
    assert Map(Trim, [x]) == [x];
  }

  /** Displaying a list with `xs.join(c + ' ')` and reading it back with
      `SplitTrimmed` is the identity on lists of trimmed, non-empty entries
      that contain no separator. */
  lemma {:induction false} SplitTrimmedJoin(xs: seq<string>, c: char, seps: set<char>)
    requires c in seps && ' ' !in seps
    requires forall i :: 0 <= i < |xs| ==> xs[i] != [] && Trimmed(xs[i]) && Avoids(xs[i], seps)
    ensures SplitTrimmed(Join(xs, [c, ' ']), seps) == xs
    decreases |xs|
  {
    if |xs| == 0 {
      assert Map(Trim, [[]]) == [[]];
    } else if |xs| == 1 {
      SplitTrimmedSingle(xs[0], seps);
    } else {
      var tail := Join(xs[1..], [c, ' ']);
      assert Join(xs, [c, ' ']) == xs[0] + [c, ' '] + tail;
      SplitTrimmedCons(xs[0], c, tail, seps);
      SplitTrimmedJoin(xs[1..], c, seps);
      assert [xs[0]] + xs[1..] == xs;
    }
  }

  /** One clean entry, the separator and a space, then the rest: the entry
      comes first and the rest reads as before. */
  lemma SplitTrimmedCons(x: string, c: char, tail: string, seps: set<char>)
    requires c in seps && ' ' !in seps
    requires x != [] && Trimmed(x) && Avoids(x, seps)
    ensures SplitTrimmed(x + [c, ' '] + tail, seps) == [x] + SplitTrimmed(tail, seps)
  {
    var spaced := [' '] + tail;
    assert x + [c, ' '] + tail == x + [c] + spaced;
    var front := SplitTrimmed(x, seps);
    var back := SplitTrimmed(spaced, seps);
    assert SplitTrimmed(x + [c] + spaced, seps) == front + back by {
      SplitTrimmedAtSeparator(x, c, spaced, seps);
    }
    assert front == [x] by {
      SplitTrimmedSingle(x, seps);
    }
    assert back == SplitTrimmed(tail, seps) by {
      SplitTrimmedLeadingSpace(' ', tail, seps);
    }
  }
}
