/** `renderRich`: a small inline-markup reader. The text has each `""x""`
    rewritten to `**x**`, is cut into paragraphs at runs of newlines, and
    each paragraph is scanned left to right into bold, italic, code and
    plain-character tokens. The React nodes become `Token`s. */
module Markdown {
  import opened Wrappers
  import opened Seqs
  import opened Text

  datatype Token =
    | Bold(text: string)     // `**text**`
    | Italic(text: string)   // `*text*`
    | Code(text: string)     // `` `text` ``
    | Plain(ch: char)        // any other single character
  {
    /** The characters of the line the token was read from. */
    function Render(): string {
      match this
      case Bold(x) => "**" + x + "**"
      case Italic(x) => "*" + x + "*"
      case Code(x) => "`" + x + "`"
      case Plain(c) => [c]
    }

    /** Contents are non-empty and free of their delimiter character. */
    predicate WellFormed() {
      match this
      case Bold(x) => x != [] && '*' !in x
      case Italic(x) => x != [] && '*' !in x
      case Code(x) => x != [] && '`' !in x
      case Plain(_) => true
    }
  }

  /** The tokens' characters, in order. */
  function RenderAll(ts: seq<Token>): string {
    if ts == [] then [] else ts[0].Render() + RenderAll(ts[1..])
  }

  /** `s` begins with `d + x + d`, where `x` is a non-empty run without `stop`:
      the shape `/^d([^stop]+)d/` matches. */
  predicate Wrapped(s: string, d: string, stop: char, x: string) {
    x != [] && stop !in x && d + x + d <= s
  }

  predicate BoldAt(s: string, x: string) { Wrapped(s, "**", '*', x) }
  predicate ItalicAt(s: string, x: string) { Wrapped(s, "*", '*', x) }
  predicate CodeAt(s: string, x: string) { Wrapped(s, "`", '`', x) }

  /** The match of `/^d([^stop]+)d/` on `s`, for a delimiter that starts with `stop`.
      The content runs up to the first `stop`, which must open the closing delimiter. */
  function MatchWrapped(s: string, d: string, stop: char): (r: Option<string>)
    requires d != [] && d[0] == stop
    ensures r.Some? ==> Wrapped(s, d, stop, r.value)
    ensures forall x :: Wrapped(s, d, stop, x) ==> r == Some(x)
  {
    if d <= s then
      var j := IndexOf(s, stop, |d|);
      WrappedUnique(s, d, stop, j);
      if |d| < j && j + |d| <= |s| && s[j..j + |d|] == d then
        WrappedFound(s, d, stop, j);
        Some(s[|d|..j])
      else None
    else None
  }

  /** The run up to the first `stop` after the opening delimiter, when the
      closing delimiter follows it, is a match. */
  lemma WrappedFound(s: string, d: string, stop: char, j: nat)
    requires d != [] && d <= s
    requires j == IndexOf(s, stop, |d|)
    requires |d| < j && j + |d| <= |s| && s[j..j + |d|] == d
    ensures Wrapped(s, d, stop, s[|d|..j])
  {
    var x := s[|d|..j];
    assert stop !in x by {
      forall k | 0 <= k < |x| ensures x[k] != stop {
        assert x[k] == s[|d| + k];
      }
    }
    assert s[..|d| + |x| + |d|] == d + x + d;
  }

  lemma WrappedUnique(s: string, d: string, stop: char, j: nat)
    requires d != [] && d[0] == stop && d <= s
    requires j == IndexOf(s, stop, |d|)
    ensures forall x :: Wrapped(s, d, stop, x) ==>
      && j == |d| + |x| && j + |d| <= |s| && s[j..j + |d|] == d && s[|d|..j] == x
  {
    forall x | Wrapped(s, d, stop, x)
      ensures j == |d| + |x| && j + |d| <= |s| && s[j..j + |d|] == d && s[|d|..j] == x
    {
      var w := d + x + d;
      assert forall k :: 0 <= k < |w| ==> s[k] == w[k];
      assert forall k :: |d| <= k < |d| + |x| ==> s[k] == x[k - |d|];
      assert s[|d| + |x|] == d[0];
      assert s[|d| + |x|..|d| + |x| + |d|] == w[|d| + |x|..];
    }
  }

  ghost predicate NoBold(s: string) { forall x :: !BoldAt(s, x) }
  ghost predicate NoItalic(s: string) { forall x :: !ItalicAt(s, x) }
  ghost predicate NoCode(s: string) { forall x :: !CodeAt(s, x) }

  /** The token read at the start of `s`: bold if it matches, else italic,
      else code, else the first character alone. */
  function NextToken(s: string): (t: Token)
    requires s != []
    ensures t.WellFormed()
    ensures t.Render() != [] && t.Render() <= s
    ensures t.Bold? ==> BoldAt(s, t.text)
    ensures t.Italic? ==> ItalicAt(s, t.text) && NoBold(s)
    ensures t.Code? ==> CodeAt(s, t.text) && NoBold(s) && NoItalic(s)
    ensures t.Plain? ==> t.ch == s[0] && NoBold(s) && NoItalic(s) && NoCode(s)
  {
    match MatchWrapped(s, "**", '*')
    case Some(x) => Bold(x)
    case None =>
      match MatchWrapped(s, "*", '*')
      case Some(x) => Italic(x)
      case None =>
        match MatchWrapped(s, "`", '`')
        case Some(x) => Code(x)
        case None => Plain(s[0])
  }

  /** The priority, read the other way: whatever matches first in the order
      bold, italic, code is the token read. */
  lemma NextTokenPriority(s: string, x: string)
    requires s != []
    ensures BoldAt(s, x) ==> NextToken(s) == Bold(x)
    ensures NoBold(s) && ItalicAt(s, x) ==> NextToken(s) == Italic(x)
    ensures NoBold(s) && NoItalic(s) && CodeAt(s, x) ==> NextToken(s) == Code(x)
    ensures NoBold(s) && NoItalic(s) && NoCode(s) ==> NextToken(s) == Plain(s[0])
  {
  }

  /** One paragraph's scan. Each token consumes at least one character. */
  function Tokenize(line: string): (r: seq<Token>)
    ensures RenderAll(r) == line
    ensures forall k :: 0 <= k < |r| ==> r[k].WellFormed()
    ensures |r| <= |line|
    decreases |line|
  {
    if line == [] then []
    else
      var t := NextToken(line);
      var rest := line[|t.Render()|..];
      assert line == t.Render() + rest;
      [t] + Tokenize(rest)
  }

  /** Scanning a line consumes its first token and then scans the rest. */
  lemma TokenizeFirst(line: string)
    requires line != []
    ensures Tokenize(line) == [NextToken(line)] + Tokenize(line[|NextToken(line).Render()|..])
  {
  }

  /** A line without `*` or backquote is read one plain character at a time. */
  lemma {:induction false} TokenizePlain(line: string)
    requires '*' !in line && '`' !in line
    ensures |Tokenize(line)| == |line|
    ensures forall k :: 0 <= k < |line| ==> Tokenize(line)[k] == Plain(line[k])
    decreases |line|
  {
    if line != [] {
      var t := NextToken(line);
      assert t.Render()[0] == line[0];
      assert line[0] != '*' && line[0] != '`';
      assert t == Plain(line[0]);
      var rest := line[1..];
      assert '*' !in rest && '`' !in rest by {
        assert forall k :: 0 <= k < |rest| ==> rest[k] == line[k + 1];
      }
      TokenizePlain(rest);
    }
  }

  /** A bold span at the start of a line is read as one token. */
  lemma TokenizeBold(x: string, rest: string)
    requires x != [] && '*' !in x
    ensures Tokenize("**" + x + "**" + rest) == [Bold(x)] + Tokenize(rest)
  {
    var line := "**" + x + "**" + rest;
    assert BoldAt(line, x);
    NextTokenPriority(line, x);
    assert line[|Bold(x).Render()|..] == rest;
  }

  // ---------------------------------------------------------------------------
  // Rewriting `""x""` to `**x**`

  /** `s[p..p+2]` is `""`. */
  predicate PairAt(s: string, p: int) {
    0 <= p && p + 1 < |s| && s[p] == '"' && s[p + 1] == '"'
  }

  /** The first `""` at or after `from`, or `|s|`. */
  function FindPair(s: string, from: nat): (r: nat)
    requires from <= |s|
    ensures from <= r <= |s|
    ensures r < |s| ==> PairAt(s, r)
    ensures forall k :: from <= k < r ==> !PairAt(s, k)
    decreases |s| - from
  {
    if from == |s| then from
    else if PairAt(s, from) then from
    else FindPair(s, from + 1)
  }

  /** `text` with `/""([\s\S]*?)""/g` replaced by `**$1**`: each match opens
      at the leftmost `""` and closes at the nearest `""` after it, and the
      scan resumes after the match. When no `""` closes, no later one can,
      and the rest is kept as is. */
  function RewriteQuotes(text: string): (r: string)
    ensures |r| == |text|
    ensures FindPair(text, 0) == |text| ==> r == text
    ensures FindPair(text, 0) < |text| && FindPair(text, FindPair(text, 0) + 2) == |text| ==> r == text
    decreases |text|
  {
    var p := FindPair(text, 0);
    if p == |text| then text
    else
      var q := FindPair(text, p + 2);
      if q == |text| then text
      else
        var rest := RewriteQuotes(text[q + 2..]);
        text[..p] + "**" + text[p + 2..q] + "**" + rest
  }

  /** Wrapping the span between two pairs turns just their quotes into stars. */
  lemma WrapChars(text: string, p: nat, q: nat, rest: string)
    requires p + 2 <= q && q + 2 <= |text| && PairAt(text, p) && PairAt(text, q)
    requires |rest| == |text| - (q + 2)
    requires forall k :: 0 <= k < |rest| ==> rest[k] == text[q + 2 + k] || (text[q + 2 + k] == '"' && rest[k] == '*')
    ensures var r := text[..p] + "**" + text[p + 2..q] + "**" + rest;
      && |r| == |text|
      && forall k :: 0 <= k < |r| ==> r[k] == text[k] || (text[k] == '"' && r[k] == '*')
  {
    var r := text[..p] + "**" + text[p + 2..q] + "**" + rest;
    forall k | 0 <= k < |r|
      ensures r[k] == text[k] || (text[k] == '"' && r[k] == '*')
    {
      if k < p {
        assert r[k] == text[k];
      } else if k < p + 2 {
        assert r[k] == '*';
      } else if k < q {
        assert r[k] == text[k];
      } else if k < q + 2 {
        assert r[k] == '*';
      } else {
        assert r[k] == rest[k - (q + 2)];
      }
    }
  }

  /** One step of the rewrite: the text before the first pair is kept, the
      span up to the nearest closing pair is wrapped in `**`, and the rest is
      rewritten on its own. */
  lemma RewriteUnfold(text: string, p: nat, q: nat)
    requires p == FindPair(text, 0) && p < |text|
    requires q == FindPair(text, p + 2) && q < |text|
    ensures RewriteQuotes(text) == text[..p] + "**" + text[p + 2..q] + "**" + RewriteQuotes(text[q + 2..])
  {
  }
  /** The rewrite keeps every character except quotes, which may become stars. */
  lemma {:induction false} RewriteOnlyStars(text: string)
    ensures forall k :: 0 <= k < |text| ==>
      RewriteQuotes(text)[k] == text[k] || (text[k] == '"' && RewriteQuotes(text)[k] == '*')
    decreases |text|
  {
    var p := FindPair(text, 0);
    if p < |text| {
      var q := FindPair(text, p + 2);
      if q < |text| {
        var tail := text[q + 2..];
        RewriteOnlyStars(tail);
        assert forall k :: 0 <= k < |tail| ==> tail[k] == text[q + 2 + k];
        RewriteUnfold(text, p, q);
        WrapChars(text, p, q, RewriteQuotes(tail));
      }
    }
  }


  /** Matching is leftmost and shortest, and scanning resumes after the match:
      the first `""` opens, the nearest `""` after it closes, the span between
      is wrapped in `**`, and the rest is rewritten on its own. */
  lemma RewriteLeftmostPair(a: string, x: string, b: string)
    requires '"' !in a && '"' !in x
    ensures RewriteQuotes(a + "\"\"" + x + "\"\"" + b) == a + "**" + x + "**" + RewriteQuotes(b)
  {
    var s := a + "\"\"" + x + "\"\"" + b;
    var p := |a|;
    var q := |a| + 2 + |x|;
    assert s[..p] == a;
    assert s[p..p + 2] == "\"\"";
    assert s[p + 2..q] == x;
    assert s[q..q + 2] == "\"\"";
    assert s[q + 2..] == b;
    PairAfterPlain(s, 0, p);
    PairAfterPlain(s, p + 2, q);
    RewriteUnfold(s, p, q);
  }

  /** A pair that follows a stretch without quotes is the first one found. */
  lemma PairAfterPlain(s: string, from: nat, at: nat)
    requires from <= at && at + 2 <= |s|
    requires s[at..at + 2] == "\"\""
    requires '"' !in s[from..at]
    ensures FindPair(s, from) == at
  {
    assert s[at] == s[at..at + 2][0] && s[at + 1] == s[at..at + 2][1];
    assert PairAt(s, at);
    forall k | from <= k < at
      ensures !PairAt(s, k)
    {
      assert s[k] == s[from..at][k - from];
    }
  }

  /** `""x""` becomes `**x**` when `x` holds no double quote. */
  lemma RewriteQuotedSpan(x: string)
    requires '"' !in x
    ensures RewriteQuotes("\"\"" + x + "\"\"") == "**" + x + "**"
  {
    RewriteLeftmostPair([], x, []);
    assert [] + "\"\"" + x + "\"\"" + [] == "\"\"" + x + "\"\"";
    assert [] + "**" + x + "**" + RewriteQuotes([]) == "**" + x + "**";
  }


  // ---------------------------------------------------------------------------
  // Paragraphs

  predicate NoNewline(s: string) {
    '\n' !in s
  }

  /** `text.split(/\n+/)`: the pieces between maximal runs of newlines. */
  function SplitRuns(s: string): (r: seq<string>)
    ensures |r| >= 1
    ensures forall k :: 0 <= k < |r| ==> NoNewline(r[k])
    ensures forall k :: 0 < k < |r| - 1 ==> r[k] != []
    decreases |s|
  {
    if s == [] then [[]]
    else
      var r := SplitRuns(s[1..]);
      if s[0] == '\n' then
        if |s| > 1 && s[1] == '\n' then r else [[]] + r
      else
        [[s[0]] + r[0]] + r[1..]
  }

  /** `s` with every run of newlines shortened to one newline. */
  function Collapse(s: string): (r: string)
    ensures |r| <= |s|
    decreases |s|
  {
    if s == [] then []
    else if s[0] == '\n' && |s| > 1 && s[1] == '\n' then Collapse(s[1..])
    else [s[0]] + Collapse(s[1..])
  }

  lemma JoinHead(c: char, r: seq<string>, sep: string)
    requires |r| >= 1
    ensures Join([[c] + r[0]] + r[1..], sep) == [c] + Join(r, sep)
  {
  }

  /** Joining the pieces with single newlines gives back the text with its
      newline runs collapsed. */
  lemma {:induction false} JoinSplitRuns(s: string)
    ensures Join(SplitRuns(s), "\n") == Collapse(s)
    decreases |s|
  {
    if s != [] {
      var r := SplitRuns(s[1..]);
      JoinSplitRuns(s[1..]);
      if s[0] == '\n' {
        if !(|s| > 1 && s[1] == '\n') {
          JoinEmptyHead(r, "\n");
          assert SplitRuns(s) == [[]] + r;
          assert Collapse(s) == "\n" + Collapse(s[1..]);
        } else {
          assert SplitRuns(s) == r;
          assert Collapse(s) == Collapse(s[1..]);
        }
      } else {
        JoinHead(s[0], r, "\n");
        assert SplitRuns(s) == [[s[0]] + r[0]] + r[1..];
        assert Collapse(s) == [s[0]] + Collapse(s[1..]);
      }
    }
  }

  lemma JoinEmptyHead(r: seq<string>, sep: string)
    requires |r| >= 1
    ensures Join([[]] + r, sep) == sep + Join(r, sep)
  {
    assert ([[]] + r)[1..] == r;
  }

  /** A piece without newlines is a single paragraph. */
  lemma {:induction false} SplitRunsPlain(s: string)
    requires NoNewline(s)
    ensures SplitRuns(s) == [s]
    decreases |s|
  {
    if s != [] {
      assert NoNewline(s[1..]) by {
        assert forall k :: 0 <= k < |s[1..]| ==> s[1..][k] == s[k + 1];
      }
      SplitRunsPlain(s[1..]);
      assert [s[0]] + s[1..] == s;
    }
  }

  /** One newline between a piece and a text that does not start with a
      newline cuts exactly there. */
  lemma {:induction false} SplitRunsAt(a: string, t: string)
    requires NoNewline(a)
    requires t == [] || t[0] != '\n'
    ensures SplitRuns(a + "\n" + t) == [a] + SplitRuns(t)
    decreases |a|
  {
    var s := a + "\n" + t;
    if a == [] {
      assert s[1..] == t;
    } else {
      assert s[0] == a[0];
      assert s[1..] == a[1..] + "\n" + t;
      assert NoNewline(a[1..]) by {
        assert forall k :: 0 <= k < |a[1..]| ==> a[1..][k] == a[k + 1];
      }
      SplitRunsAt(a[1..], t);
      assert [a[0]] + a[1..] == a;
    }
  }

  /** Paragraph splitting inverts joining with single newlines, for pieces
      without newlines whose interior pieces are non-empty. */
  lemma {:induction false} SplitRunsJoin(xs: seq<string>)
    requires |xs| >= 1
    requires forall k :: 0 <= k < |xs| ==> NoNewline(xs[k])
    requires forall k :: 0 < k < |xs| - 1 ==> xs[k] != []
    ensures SplitRuns(Join(xs, "\n")) == xs
    decreases |xs|
  {
    if |xs| == 1 {
      SplitRunsPlain(xs[0]);
    } else {
      var t := Join(xs[1..], "\n");
      assert t == [] || t[0] != '\n' by {
        if |xs| > 2 {
          assert xs[1] != [];
          JoinFirst(xs[1..], "\n");
        } else {
          assert xs[1..] == [xs[1]];
        }
      }
      SplitRunsAt(xs[0], t);
      SplitRunsJoin(xs[1..]);
    }
  }

  lemma JoinFirst(xs: seq<string>, sep: string)
    requires |xs| >= 1 && xs[0] != []
    ensures Join(xs, sep) != [] && Join(xs, sep)[0] == xs[0][0]
  {
  }

  /** `renderRich(text)`: one token list per paragraph. */
  function Paragraphs(text: string): (r: seq<seq<Token>>)
    ensures |r| == |SplitRuns(RewriteQuotes(text))| >= 1
    ensures forall k :: 0 <= k < |r| ==> RenderAll(r[k]) == SplitRuns(RewriteQuotes(text))[k]
  {
    Map(Tokenize, SplitRuns(RewriteQuotes(text)))
  }

  /** Re-serialising the paragraphs, one newline apart, gives the rewritten
      text with its newline runs collapsed. */
  lemma ParagraphsRender(text: string)
    ensures Join(Map(RenderAll, Paragraphs(text)), "\n") == Collapse(RewriteQuotes(text))
  {
    var pieces := SplitRuns(RewriteQuotes(text));
    assert Map(RenderAll, Paragraphs(text)) == pieces;
    JoinSplitRuns(RewriteQuotes(text));
  }
}
