/** The Python string operations the models share, on code points. */
module Text {

  /** str.isspace */
  predicate IsSpace(c: char) {
    || '\t' <= c <= '\r' || '\U{1C}' <= c <= ' ' || c == '\U{85}' || c == '\U{A0}' || c == '\U{1680}'
    || '\U{2000}' <= c <= '\U{200A}' || c == '\U{2028}' || c == '\U{2029}' || c == '\U{202F}'
    || c == '\U{205F}' || c == '\U{3000}'
  }

  /** The line boundaries of str.splitlines. */
  predicate IsBreak(c: char) {
    '\n' <= c <= '\r' || '\U{1C}' <= c <= '\U{1E}' || c == '\U{85}' || c == '\U{2028}' || c == '\U{2029}'
  }

  predicate Blank(s: string) { forall i :: 0 <= i < |s| ==> IsSpace(s[i]) }

  /** Number of leading space characters. */
  function Leading(s: string): (n: nat)
    ensures n <= |s| && (forall i :: 0 <= i < n ==> IsSpace(s[i])) && (n < |s| ==> !IsSpace(s[n]))
  {
    if s == [] || !IsSpace(s[0]) then 0 else 1 + Leading(s[1..])
  }

  /** Length without the trailing space characters. */
  function Trailing(s: string): (n: nat)
    ensures n <= |s| && (forall i :: n <= i < |s| ==> IsSpace(s[i])) && (n > 0 ==> !IsSpace(s[n - 1]))
  {
    if s == [] || !IsSpace(s[|s| - 1]) then |s| else Trailing(s[..|s| - 1])
  }

  lemma StripBounds(s: string)
    requires !Blank(s)
    ensures Leading(s) < Trailing(s)
  {
    var i :| 0 <= i < |s| && !IsSpace(s[i]);
    assert Leading(s) <= i < Trailing(s);
  }

  lemma TrimBounds(s: string) returns (left: nat, right: nat)
    requires !Blank(s)
    ensures left == Leading(s) && right == Trailing(s)
    ensures left < right <= |s| && !IsSpace(s[left]) && !IsSpace(s[right - 1])
  {
    StripBounds(s);
    left, right := Leading(s), Trailing(s);
  }

  function Strip(s: string): (t: string)
    ensures t == [] <==> Blank(s)
  {
    if Blank(s) then []
    else StripBounds(s); s[Leading(s)..Trailing(s)]
  }

  lemma StripTrimmed(s: string)
    requires s != [] && !IsSpace(s[0]) && !IsSpace(s[|s| - 1])
    ensures Strip(s) == s
  {
    assert Trailing(s) == |s|;
  }

  /** Length of the first line, its boundary included; "\r\n" is one boundary. */
  function FirstLine(s: string): (n: nat)
    requires s != []
    ensures 1 <= n <= |s|
  {
    if IsBreak(s[0]) then (if s[0] == '\r' && |s| > 1 && s[1] == '\n' then 2 else 1)
    else if |s| == 1 then 1
    else 1 + FirstLine(s[1..])
  }

  /** splitlines(keepends=True) */
  function SplitKeepEnds(s: string): (lines: seq<string>)
    ensures forall i :: 0 <= i < |lines| ==> lines[i] != []
  {
    if s == [] then [] else [s[..FirstLine(s)]] + SplitKeepEnds(s[FirstLine(s)..])
  }

  /** Offset of line `i` in the text the lines make up. */
  function Offset(lines: seq<string>, i: nat): nat
    requires i <= |lines|
  {
    if i == 0 then 0 else Offset(lines, i - 1) + |lines[i - 1]|
  }

  lemma {:induction false} OffsetShift(lines: seq<string>, i: nat)
    requires 1 <= i <= |lines|
    ensures Offset(lines, i) == |lines[0]| + Offset(lines[1..], i - 1)
  {
    if i == 1 {
    } else {
      OffsetShift(lines, i - 1);
    }
  }

  /** The lines tile the text: line `i` sits at its offset. */
  lemma {:induction false} LinesTile(s: string, i: nat)
    requires i < |SplitKeepEnds(s)|
    ensures var lines := SplitKeepEnds(s);
            Offset(lines, i + 1) <= |s| && s[Offset(lines, i)..Offset(lines, i + 1)] == lines[i]
    decreases |s|
  {
    var lines, n := SplitKeepEnds(s), FirstLine(s);
    OffsetShift(lines, i + 1);
    if i == 0 {
      assert Offset(lines, 1) == Offset(lines, 0) + |lines[0]|;
    } else {
      var tail := SplitKeepEnds(s[n..]);
      assert lines[1..] == tail && lines[i] == tail[i - 1];
      OffsetShift(lines, i);
      LinesTile(s[n..], i - 1);
      TailSlice(s, n, Offset(tail, i - 1), Offset(tail, i));
    }
  }

  lemma {:induction false} LinesCover(s: string)
    ensures Offset(SplitKeepEnds(s), |SplitKeepEnds(s)|) == |s|
    decreases |s|
  {
    var lines := SplitKeepEnds(s);
    if s == [] {
    } else {
      LinesCover(s[FirstLine(s)..]);
      assert lines[1..] == SplitKeepEnds(s[FirstLine(s)..]);
      OffsetShift(lines, |lines|);
    }
  }

  lemma TailSlice(s: string, n: nat, from: nat, to: nat)
    requires n <= |s| && from <= to <= |s| - n
    ensures s[n..][from..to] == s[n + from..n + to]
  {
  }

  lemma {:induction false} OffsetMonotone(lines: seq<string>, i: nat, j: nat)
    requires i <= j <= |lines|
    ensures Offset(lines, i) <= Offset(lines, j)
    decreases j
  {
    if i == j {
    } else {
      OffsetMonotone(lines, i, j - 1);
    }
  }

  function Concat(parts: seq<string>): string {
    if parts == [] then [] else Concat(parts[..|parts| - 1]) + parts[|parts| - 1]
  }

  function Join(separator: string, parts: seq<string>): string {
    if parts == [] then []
    else if |parts| == 1 then parts[0]
    else Join(separator, parts[..|parts| - 1]) + separator + parts[|parts| - 1]
  }

  lemma {:induction false} JoinEnds(separator: string, parts: seq<string>)
    requires parts != [] && forall i :: 0 <= i < |parts| ==> parts[i] != []
    ensures var s := Join(separator, parts);
            s != [] && s[0] == parts[0][0] && s[|s| - 1] == parts[|parts| - 1][|parts[|parts| - 1]| - 1]
  {
    if |parts| <= 1 {
    } else {
      JoinEnds(separator, parts[..|parts| - 1]);
    }
  }

  // ----- lines without their boundaries, search, whitespace collapse

  /** The first `n` characters are a whole line, `b` of them before its boundary: no boundary inside,
      one at the end unless the text ends, and no "\r\n" cut in two. */
  ghost predicate WholeLine(s: string, n: nat, b: nat) {
    && b <= n <= |s| && (forall k :: 0 <= k < b ==> !IsBreak(s[k]))
    && (n == b || (n == b + 1 && IsBreak(s[b])) || (n == b + 2 && s[b] == '\r' && s[b + 1] == '\n'))
    && (n < |s| ==> b < n && !(s[n - 1] == '\r' && s[n] == '\n'))
  }

  lemma WholeLineStep(s: string, n: nat, b: nat)
    requires s != [] && !IsBreak(s[0]) && WholeLine(s[1..], n, b)
    ensures WholeLine(s, n + 1, b + 1)
  {
    var rest := s[1..];
    forall k | 0 <= k < b + 1 ensures !IsBreak(s[k]) {
      if k > 0 { assert s[k] == rest[k - 1]; }
    }
  }

  lemma {:induction false} FirstLineEnds(s: string) returns (b: nat)
    requires s != []
    ensures WholeLine(s, FirstLine(s), b)
    decreases |s|
  {
    if IsBreak(s[0]) {
      b := 0;
    } else if |s| == 1 {
      b := 1;
    } else {
      b := FirstLineEnds(s[1..]);
      WholeLineStep(s, FirstLine(s[1..]), b);
      b := b + 1;
    }
  }

  lemma BodyOf(s: string, n: nat, b: nat)
    requires WholeLine(s, n, b)
    ensures Body(s[..n]) == s[..b]
  {
    var line := s[..n];
    if n == b + 1 {
      assert b > 0 ==> line[n - 2..][0] == s[b - 1] != '\r' == "\r\n"[0];
    } else if n == b + 2 {
      assert line[n - 2..] == "\r\n";
    }
  }

  lemma BodyBlank(line: string)
    ensures Blank(Body(line)) <==> Blank(line)
  {
  }

  ghost predicate BlankBodies(lines: seq<string>) { forall i :: 0 <= i < |lines| ==> Blank(Body(lines[i])) }

  lemma BlankBodiesPush(line: string, rest: seq<string>)
    ensures BlankBodies([line] + rest) <==> Blank(Body(line)) && BlankBodies(rest)
  {
    var lines := [line] + rest;
    assert lines[0] == line;
    assert forall i :: 0 <= i < |rest| ==> lines[i + 1] == rest[i];
    assert forall i :: 1 <= i < |lines| ==> lines[i] == rest[i - 1];
  }

  /** A text is blank exactly when all its lines are. */
  lemma {:induction false} BlankLines(s: string)
    ensures Blank(s) <==> BlankBodies(SplitKeepEnds(s))
    decreases |s|
  {
    if s == [] {
    } else {
      var n := FirstLine(s);
      BlankLines(s[n..]);
      BodyBlank(s[..n]);
      BlankConcat(s, n);
      BlankBodiesPush(s[..n], SplitKeepEnds(s[n..]));
    }
  }

  lemma BlankConcat(s: string, n: nat)
    requires n <= |s|
    ensures Blank(s) <==> Blank(s[..n]) && Blank(s[n..])
  {
    if Blank(s[..n]) && Blank(s[n..]) {
      forall i | 0 <= i < |s| ensures IsSpace(s[i]) {
        assert s[i] == if i < n then s[..n][i] else s[n..][i - n];
      }
    }
  }

  /** Line `i` has no boundary inside; a later line follows a boundary, and "\r\n" is not cut in two. */
  ghost predicate EndsWell(lines: seq<string>, i: nat) {
    && i < |lines| && (forall k :: 0 <= k < |Body(lines[i])| ==> !IsBreak(lines[i][k]))
    && (i + 1 < |lines| ==>
          && lines[i] != [] && lines[i + 1] != [] && IsBreak(lines[i][|lines[i]| - 1])
          && !(lines[i][|lines[i]| - 1] == '\r' && lines[i + 1][0] == '\n'))
  }

  lemma EndsPush(line: string, rest: seq<string>, i: nat)
    requires EndsWell(rest, i)
    ensures EndsWell([line] + rest, i + 1)
  {
    var lines := [line] + rest;
    assert lines[i + 1] == rest[i];
    if i + 1 < |rest| { assert lines[i + 2] == rest[i + 1]; }
  }

  lemma FirstEnds(s: string, n: nat, b: nat, rest: seq<string>)
    requires s != [] && 0 < n && WholeLine(s, n, b) && rest == SplitKeepEnds(s[n..])
    ensures EndsWell([s[..n]] + rest, 0)
  {
    var lines := [s[..n]] + rest;
    BodyOf(s, n, b);
    assert lines[0] == s[..n];
    if n < |s| { assert lines[1] == rest[0] && rest[0][0] == s[n..][0] == s[n]; }
  }

  /** Lines end where boundaries are, "\r\n" being one, and nowhere else. */
  lemma {:induction false} LinesEnd(s: string, i: nat)
    requires i < |SplitKeepEnds(s)|
    ensures EndsWell(SplitKeepEnds(s), i)
    decreases |s|
  {
    var n := FirstLine(s);
    if i == 0 {
      var b := FirstLineEnds(s);
      FirstEnds(s, n, b, SplitKeepEnds(s[n..]));
    } else {
      LinesEnd(s[n..], i - 1);
      EndsPush(s[..n], SplitKeepEnds(s[n..]), i - 1);
    }
  }

  /** A line as splitlines() gives it, from the one with its boundary. */
  function Body(line: string): (b: string)
    ensures b <= line
  {
    if line == [] || !IsBreak(line[|line| - 1]) then line
    else if |line| > 1 && line[|line| - 2..] == "\r\n" then line[..|line| - 2]
    else line[..|line| - 1]
  }

  /** A stretch of a text, with what stands there. */
  datatype Span = Span(start: nat, end: nat, exact: string)

  predicate Quotes(content: string, s: Span) { s.start <= s.end <= |content| && content[s.start..s.end] == s.exact }

  predicate At(s: string, i: nat, part: string) { i + |part| <= |s| && s[i..i + |part|] == part }

  predicate Contains(s: string, part: string) { exists i :: 0 <= i <= |s| && At(s, i, part) }

  /** str.find: the first occurrence at or after `from`. */
  function Find(s: string, part: string, from: nat): (r: int)
    ensures r >= 0 ==> from <= r && At(s, r, part)
    ensures r < 0 ==> r == -1 && forall i :: from <= i ==> !At(s, i, part)
    ensures r >= 0 ==> forall i :: from <= i < r ==> !At(s, i, part)
    decreases |s| - from
  {
    if from + |part| > |s| then -1
    else if At(s, from, part) then from
    else Find(s, part, from + 1)
  }

  /** Every run of whitespace becomes one space. */
  function Collapse(s: string): string
    decreases |s|
  {
    if s == [] then []
    else if IsSpace(s[0]) then [' '] + Collapse(s[Leading(s)..])
    else [s[0]] + Collapse(s[1..])
  }

  lemma {:induction false} CollapseBlank(s: string)
    ensures Blank(Collapse(s)) <==> Blank(s)
    decreases |s|
  {
    if s == [] {
    } else if IsSpace(s[0]) {
      var n := Leading(s);
      CollapseBlank(s[n..]);
      BlankConcat(s, n);
      assert Collapse(s)[..1] == [' '] && Collapse(s)[1..] == Collapse(s[n..]);
      BlankConcat(Collapse(s), 1);
    } else {
      assert !IsSpace(Collapse(s)[0]);
    }
  }

  // ----- what collapsing and stripping keep: the words

  /** str.split(): the maximal stretches without whitespace. */
  function Words(s: string): (words: seq<string>)
    ensures s != [] && !IsSpace(s[0]) ==> words != []
    ensures forall w :: w in words ==> w != [] && forall k :: 0 <= k < |w| ==> !IsSpace(w[k])
  {
    if s == [] then []
    else if IsSpace(s[0]) then Words(s[1..])
    else if |s| == 1 || IsSpace(s[1]) then [[s[0]]] + Words(s[1..])
    else [[s[0]] + Words(s[1..])[0]] + Words(s[1..])[1..]
  }

  lemma {:induction false} WordsSkip(s: string, n: nat)
    requires n <= |s| && forall i :: 0 <= i < n ==> IsSpace(s[i])
    ensures Words(s) == Words(s[n..])
    decreases n
  {
    if n == 0 {
    } else {
      WordsSkip(s[1..], n - 1);
      assert s[1..][n - 1..] == s[n..];
    }
  }

  lemma {:induction false} WordsSpaceLast(s: string, c: char)
    requires IsSpace(c)
    ensures Words(s + [c]) == Words(s)
    decreases |s|
  {
    var longer := s + [c];
    if s == [] {
      assert longer == [c] && longer[1..] == [];
    } else {
      WordsSpaceLast(s[1..], c);
      assert longer[1..] == s[1..] + [c];
    }
  }

  lemma {:induction false} WordsTrail(s: string, n: nat)
    requires n <= |s| && forall i :: n <= i < |s| ==> IsSpace(s[i])
    ensures Words(s[..n]) == Words(s)
    decreases |s|
  {
    if n == |s| {
      assert s[..n] == s;
    } else {
      assert s == s[..|s| - 1] + [s[|s| - 1]];
      WordsSpaceLast(s[..|s| - 1], s[|s| - 1]);
      WordsTrail(s[..|s| - 1], n);
      assert s[..|s| - 1][..n] == s[..n];
    }
  }

  lemma WordsOfStrip(s: string)
    ensures Words(Strip(s)) == Words(s)
  {
    if Blank(s) {
      WordsSkip(s, |s|);
    } else {
      var left, right := TrimBounds(s);
      WordsTrail(s, right);
      WordsSkip(s[..right], left);
      assert s[..right][left..] == s[left..right];
    }
  }

  lemma {:induction false} WordsOfCollapse(s: string)
    ensures Words(Collapse(s)) == Words(s)
    decreases |s|
  {
    if s == [] {
    } else if IsSpace(s[0]) {
      var rest := s[Leading(s)..];
      WordsSkip(s, Leading(s));
      WordsOfCollapse(rest);
      assert Collapse(s)[1..] == Collapse(rest);
    } else {
      WordsOfCollapse(s[1..]);
      assert Collapse(s)[1..] == Collapse(s[1..]);
      if |s| > 1 { assert IsSpace(Collapse(s[1..])[0]) <==> IsSpace(s[1]); }
    }
  }

  /** Whitespace stands only between words, as one space. */
  ghost predicate Spaced(s: string) {
    forall k :: 0 <= k < |s| && IsSpace(s[k]) ==> s[k] == ' ' && (k + 1 < |s| ==> !IsSpace(s[k + 1]))
  }

  lemma {:induction false} CollapseSpaced(s: string)
    ensures Spaced(Collapse(s)) && (Collapse(s) == [] <==> s == [])
    ensures s != [] ==> (IsSpace(Collapse(s)[0]) <==> IsSpace(s[0]))
    decreases |s|
  {
    if s == [] {
    } else {
      var rest := if IsSpace(s[0]) then s[Leading(s)..] else s[1..];
      CollapseSpaced(rest);
      assert Collapse(s)[1..] == Collapse(rest);
      forall k | 0 <= k < |Collapse(s)| && IsSpace(Collapse(s)[k])
        ensures Collapse(s)[k] == ' ' && (k + 1 < |Collapse(s)| ==> !IsSpace(Collapse(s)[k + 1]))
      {
        if k > 0 { assert Collapse(s)[k] == Collapse(rest)[k - 1]; }
        if k + 1 < |Collapse(s)| { assert Collapse(s)[k + 1] == Collapse(rest)[k]; }
      }
    }
  }

  lemma StripSpaced(t: string)
    requires Spaced(t)
    ensures Spaced(Strip(t)) && |Strip(t)| <= |t|
    ensures Strip(t) != [] ==> !IsSpace(Strip(t)[0]) && !IsSpace(Strip(t)[|Strip(t)| - 1])
  {
    if !Blank(t) {
      var left, right := TrimBounds(t);
      var cut := t[left..right];
      forall k | 0 <= k < |cut| && IsSpace(cut[k]) ensures cut[k] == ' ' && (k + 1 < |cut| ==> !IsSpace(cut[k + 1])) {
        assert cut[k] == t[left + k];
        if k + 1 < |cut| { assert cut[k + 1] == t[left + k + 1]; }
      }
    }
  }

  /** The words of `s` in order, with one space between two of them and none around. */
  ghost predicate WordsSpaced(s: string, t: string) {
    && Words(t) == Words(s) && Spaced(t)
    && (t != [] ==> !IsSpace(t[0]) && !IsSpace(t[|t| - 1]))
  }

  /** A cleaned text is the words of the text with single spaces between them, cut at the limit. */
  lemma CleanIsWords(s: string, limit: nat) returns (whole: string)
    ensures WordsSpaced(s, whole)
    ensures Clean(s, limit) == if |whole| <= limit then whole else whole[..limit]
  {
    WordsOfCollapse(s);
    WordsOfStrip(Collapse(s));
    CollapseSpaced(s);
    StripSpaced(Collapse(s));
    whole := Strip(Collapse(s));
  }

  function Clean(s: string, limit: nat): string {
    var t := Strip(Collapse(s));
    if |t| <= limit then t else t[..limit]
  }

  lemma CleanEmpty(s: string, limit: nat)
    requires limit > 0
    ensures Clean(s, limit) == [] <==> Blank(s)
  {
    CollapseBlank(s);
  }
}
