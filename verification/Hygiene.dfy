/** Deterministic selection of model-eligible text from one message body
    (packs/communication/hygiene.py). */
module Hygiene {
  import opened Prelude
  import opened Text

  /** The five regular expressions, as predicates on a line. */
  datatype Patterns = Patterns(quotedStart: string -> bool, forwardedStart: string -> bool,
                               signature: string -> bool, boilerplate: string -> bool, tracking: string -> bool)

  /** Each pattern requires at least one visible character. */
  ghost predicate MatchesVisibleText(p: Patterns) {
    forall line ::
      p.quotedStart(line) || p.forwardedStart(line) || p.signature(line) || p.boilerplate(line) || p.tracking(line)
      ==> !Blank(line)
  }

  /** Length without trailing carriage returns and newlines. */
  function ChompLength(raw: string): (n: nat)
    ensures n <= |raw|
  {
    if raw != [] && raw[|raw| - 1] in "\r\n" then ChompLength(raw[..|raw| - 1]) else |raw|
  }

  function Line(raw: string): string { raw[..ChompLength(raw)] }

  predicate IsQuote(line: string) { Leading(line) < |line| && line[Leading(line)] == '>' }

  datatype Verdict = Quoted | Signature | Boilerplate | Tracking | Kept | Empty

  /** The verdict on a line while nothing has stopped the scan. */
  function Classify(p: Patterns, line: string): Verdict {
    if p.quotedStart(line) || p.forwardedStart(line) || IsQuote(line) then Quoted
    else if p.signature(line) then Signature
    else if p.boilerplate(line) then Boilerplate
    else if p.tracking(line) then Tracking
    else if Blank(line) then Empty
    else Kept
  }

  /** A line after which everything is history. */
  predicate Stops(p: Patterns, line: string) {
    p.quotedStart(line) || p.forwardedStart(line) || (!IsQuote(line) && p.signature(line))
  }

  predicate StoppedBefore(p: Patterns, lines: seq<string>, i: nat)
    requires i <= |lines|
  {
    exists j :: 0 <= j < i && Stops(p, Line(lines[j]))
  }

  function VerdictAt(p: Patterns, lines: seq<string>, i: nat): Verdict
    requires i < |lines|
  {
    var line := Line(lines[i]);
    if StoppedBefore(p, lines, i) then (if Blank(line) then Empty else Quoted) else Classify(p, line)
  }

  function Count(p: Patterns, lines: seq<string>, n: nat, v: Verdict): nat
    requires n <= |lines|
  {
    if n == 0 then 0 else Count(p, lines, n - 1, v) + if VerdictAt(p, lines, n - 1) == v then 1 else 0
  }

  function NonBlank(lines: seq<string>, n: nat): nat
    requires n <= |lines|
  {
    if n == 0 then 0 else NonBlank(lines, n - 1) + if Blank(Line(lines[n - 1])) then 0 else 1
  }

  /** A kept line, trimmed, with its place in the body. */
  function PieceAt(start: nat, line: string): Span {
    if Blank(line) then Span(0, 0, [])
    else
      StripBounds(line);
      Span(start + Leading(line), start + Trailing(line), line[Leading(line)..Trailing(line)])
  }

  function SpanOf(lines: seq<string>, i: nat): Span
    requires i < |lines|
  {
    PieceAt(Offset(lines, i), Line(lines[i]))
  }

  function KeptSpans(p: Patterns, lines: seq<string>, n: nat): seq<Span>
    requires n <= |lines|
  {
    if n == 0 then []
    else KeptSpans(p, lines, n - 1) + if VerdictAt(p, lines, n - 1).Kept? then [SpanOf(lines, n - 1)] else []
  }

  // ----- what the scan guarantees

  lemma EmptyIsBlank(p: Patterns, lines: seq<string>, i: nat)
    requires MatchesVisibleText(p) && i < |lines|
    ensures VerdictAt(p, lines, i).Empty? <==> Blank(Line(lines[i]))
  {
    assert IsQuote(Line(lines[i])) ==> !Blank(Line(lines[i]));
  }

  /** Every visible line is accounted for exactly once: it is kept or it is counted. */
  lemma {:induction false} LinesConserved(p: Patterns, lines: seq<string>, n: nat)
    requires MatchesVisibleText(p) && n <= |lines|
    ensures |KeptSpans(p, lines, n)| + Count(p, lines, n, Quoted) + Count(p, lines, n, Signature) +
            Count(p, lines, n, Boilerplate) + Count(p, lines, n, Tracking) == NonBlank(lines, n)
  {
    if n == 0 {
    } else {
      LinesConserved(p, lines, n - 1);
      EmptyIsBlank(p, lines, n - 1);
    }
  }

  ghost predicate Trimmed(s: string) { s != [] && !IsSpace(s[0]) && !IsSpace(s[|s| - 1]) }

  ghost predicate TrimmedSpan(body: string, s: Span) { Quotes(body, s) && Trimmed(s.exact) }

  ghost predicate ExactSpans(body: string, spans: seq<Span>, limit: nat) {
    && (forall i :: 0 <= i < |spans| ==> TrimmedSpan(body, spans[i]) && spans[i].end <= limit)
    && (forall i, j :: 0 <= i < j < |spans| ==> spans[i].end <= spans[j].start)
  }

  lemma ExactSpansAppend(body: string, spans: seq<Span>, s: Span, limit: nat, next: nat)
    requires ExactSpans(body, spans, limit) && TrimmedSpan(body, s) && limit <= s.start && s.end <= next
    ensures ExactSpans(body, spans + [s], next)
  {
  }

  ghost predicate TileAt(body: string, lines: seq<string>, i: nat)
    requires i < |lines|
  {
    Offset(lines, i) <= Offset(lines, i + 1) <= |body| && body[Offset(lines, i)..Offset(lines, i + 1)] == lines[i]
  }

  ghost predicate Tile(body: string, lines: seq<string>) {
    forall i :: 0 <= i < |lines| ==> TileAt(body, lines, i)
  }

  lemma SplitTiles(body: string)
    ensures Tile(body, SplitKeepEnds(body))
  {
    var lines := SplitKeepEnds(body);
    forall i | 0 <= i < |lines| ensures TileAt(body, lines, i) {
      LinesTile(body, i);
      OffsetMonotone(lines, i, i + 1);
    }
  }

  /** Line `n - 1` adds at most one span, from its own stretch of the body. */
  lemma KeptStep(p: Patterns, body: string, lines: seq<string>, n: nat) returns (added: seq<Span>)
    requires Tile(body, lines) && 0 < n <= |lines|
    ensures KeptSpans(p, lines, n) == KeptSpans(p, lines, n - 1) + added && |added| <= 1
    ensures added != [] ==>
              TrimmedSpan(body, added[0]) && Offset(lines, n - 1) <= added[0].start && added[0].end <= Offset(lines, n)
    ensures added != [] ==> !StoppedBefore(p, lines, n - 1) && !Stops(p, Line(lines[n - 1]))
  {
    if VerdictAt(p, lines, n - 1).Kept? {
      KeptInside(p, body, lines, n - 1);
      added := [SpanOf(lines, n - 1)];
    } else {
      assert KeptSpans(p, lines, n) == KeptSpans(p, lines, n - 1) + [];
      added := [];
    }
  }

  lemma KeptInside(p: Patterns, body: string, lines: seq<string>, i: nat)
    requires Tile(body, lines) && i < |lines| && VerdictAt(p, lines, i).Kept?
    ensures var s := SpanOf(lines, i);
            TrimmedSpan(body, s) && Offset(lines, i) <= s.start && s.end <= Offset(lines, i + 1)
    ensures !StoppedBefore(p, lines, i) && !Stops(p, Line(lines[i]))
  {
    SpanExact(body, lines, i);
  }

  lemma AddedExact(body: string, before: seq<Span>, added: seq<Span>, limit: nat, next: nat)
    requires ExactSpans(body, before, limit) && limit <= next && |added| <= 1
    requires added != [] ==> TrimmedSpan(body, added[0]) && limit <= added[0].start && added[0].end <= next
    ensures ExactSpans(body, before + added, next)
  {
    if added == [] {
      assert before + added == before;
    } else {
      ExactSpansAppend(body, before, added[0], limit, next);
      assert added == [added[0]];
    }
  }

  /** Kept spans are exact, trimmed, non-empty, ordered and disjoint, and end before the offset
      of the line that follows the scanned ones. */
  lemma {:induction false} KeptSpansExact(p: Patterns, body: string, lines: seq<string>, n: nat)
    requires Tile(body, lines) && n <= |lines|
    ensures ExactSpans(body, KeptSpans(p, lines, n), Offset(lines, n))
  {
    if n == 0 {
    } else {
      KeptSpansExact(p, body, lines, n - 1);
      OffsetMonotone(lines, n - 1, n);
      var added := KeptStep(p, body, lines, n);
      AddedExact(body, KeptSpans(p, lines, n - 1), added, Offset(lines, n - 1), Offset(lines, n));
    }
  }

  lemma SliceOfSlice(s: string, from: nat, to: nat, i: nat, j: nat)
    requires i <= j <= to - from && from <= to <= |s|
    ensures s[from..to][i..j] == s[from + i..from + j]
  {
    assert forall k :: 0 <= k < j - i ==> s[from..to][i..j][k] == s[from + i..from + j][k];
  }

  lemma SliceEnds(line: string, left: nat, right: nat)
    requires left < right <= |line| && !IsSpace(line[left]) && !IsSpace(line[right - 1])
    ensures Trimmed(line[left..right])
  {
  }

  lemma SliceInside(body: string, start: nat, line: string, i: nat, j: nat)
    requires start + |line| <= |body| && body[start..start + |line|] == line && i <= j <= |line|
    ensures body[start + i..start + j] == line[i..j]
  {
    SliceOfSlice(body, start, start + |line|, i, j);
  }

  lemma PieceBounds(start: nat, line: string) returns (left: nat, right: nat)
    requires !Blank(line)
    ensures left < right <= |line| && !IsSpace(line[left]) && !IsSpace(line[right - 1])
    ensures PieceAt(start, line) == Span(start + left, start + right, line[left..right])
  {
    left, right := TrimBounds(line);
  }

  lemma PieceExact(body: string, line: string, start: nat)
    requires start + |line| <= |body| && body[start..start + |line|] == line && !Blank(line)
    ensures var s := PieceAt(start, line); start <= s.start && s.end <= start + |line| && TrimmedSpan(body, s)
  {
    var left, right := PieceBounds(start, line);
    SliceEnds(line, left, right);
    SliceInside(body, start, line, left, right);
  }

  lemma LineInside(body: string, lines: seq<string>, i: nat)
    requires Tile(body, lines) && i < |lines|
    ensures var n, o := |Line(lines[i])|, Offset(lines, i);
            o + n <= Offset(lines, i + 1) <= |body| && body[o..o + n] == Line(lines[i])
  {
    assert TileAt(body, lines, i);
    SliceInside(body, Offset(lines, i), lines[i], 0, ChompLength(lines[i]));
  }

  lemma SpanExact(body: string, lines: seq<string>, i: nat)
    requires Tile(body, lines) && i < |lines| && !Blank(Line(lines[i]))
    ensures var s := SpanOf(lines, i);
            Offset(lines, i) <= s.start && s.end <= Offset(lines, i + 1) && TrimmedSpan(body, s)
  {
    LineInside(body, lines, i);
    PieceExact(body, Line(lines[i]), Offset(lines, i));
  }

  lemma NotKept(p: Patterns, lines: seq<string>, i: nat, stop: nat)
    requires stop <= i < |lines| && Stops(p, Line(lines[stop]))
    ensures !VerdictAt(p, lines, i).Kept?
  {
    if stop < i { assert StoppedBefore(p, lines, i); }
  }

  /** Nothing at or after a stop marker is kept. */
  lemma {:induction false} KeptBeforeStop(p: Patterns, lines: seq<string>, n: nat, stop: nat)
    requires stop <= n <= |lines|
    requires stop < |lines| ==> Stops(p, Line(lines[stop]))
    ensures KeptSpans(p, lines, n) == KeptSpans(p, lines, stop)
    decreases n
  {
    if stop == n {
    } else {
      NotKept(p, lines, n - 1, stop);
      KeptBeforeStop(p, lines, n - 1, stop);
    }
  }

  // ----- the scan

  datatype Counts = Counts(quoted: nat, signature: nat, boilerplate: nat, tracking: nat)

  function CountsOf(p: Patterns, lines: seq<string>, n: nat): Counts
    requires n <= |lines|
  {
    Counts(Count(p, lines, n, Quoted), Count(p, lines, n, Signature),
           Count(p, lines, n, Boilerplate), Count(p, lines, n, Tracking))
  }

  function Bump(c: Counts, v: Verdict): Counts {
    match v
    case Quoted => c.(quoted := c.quoted + 1)
    case Signature => c.(signature := c.signature + 1)
    case Boilerplate => c.(boilerplate := c.boilerplate + 1)
    case Tracking => c.(tracking := c.tracking + 1)
    case _ => c
  }

  /** What the loop knows after `i` lines. */
  ghost predicate Scanned(p: Patterns, lines: seq<string>, i: nat, cursor: nat, stopped: bool, kept: seq<Span>,
                          counts: Counts)
    requires i <= |lines|
  {
    && cursor == Offset(lines, i) && stopped == StoppedBefore(p, lines, i)
    && kept == KeptSpans(p, lines, i) && counts == CountsOf(p, lines, i)
  }

  function VerdictNow(p: Patterns, line: string, stopped: bool): Verdict {
    if stopped then (if Blank(line) then Empty else Quoted) else Classify(p, line)
  }

  lemma ScanStep(p: Patterns, lines: seq<string>, i: nat, cursor: nat, stopped: bool, kept: seq<Span>, counts: Counts)
    requires i < |lines| && Scanned(p, lines, i, cursor, stopped, kept, counts)
    ensures var line := Line(lines[i]);
            var v := VerdictNow(p, line, stopped);
            Scanned(p, lines, i + 1, cursor + |lines[i]|, stopped || Stops(p, line),
                    if v.Kept? then kept + [PieceAt(cursor, line)] else kept, Bump(counts, v))
  {
    StopStep(p, lines, i);
    assert VerdictAt(p, lines, i) == VerdictNow(p, Line(lines[i]), stopped);
    CountsStep(p, lines, i);
  }

  lemma CountsStep(p: Patterns, lines: seq<string>, i: nat)
    requires i < |lines|
    ensures CountsOf(p, lines, i + 1) == Bump(CountsOf(p, lines, i), VerdictAt(p, lines, i))
  {
  }

  method ScanLine(p: Patterns, line: string, start: nat, stopped: bool, kept: seq<Span>, counts: Counts)
    returns (stopped': bool, kept': seq<Span>, counts': Counts)
    ensures stopped' == (stopped || Stops(p, line)) && counts' == Bump(counts, VerdictNow(p, line, stopped))
    ensures kept' == if VerdictNow(p, line, stopped).Kept? then kept + [PieceAt(start, line)] else kept
  {
    stopped', kept', counts' := stopped, kept, counts;
    if stopped {
      if !Blank(line) { counts' := counts.(quoted := counts.quoted + 1); }
    } else if p.quotedStart(line) || p.forwardedStart(line) {
      counts', stopped' := counts.(quoted := counts.quoted + 1), true;
    } else if IsQuote(line) {
      counts' := counts.(quoted := counts.quoted + 1);
    } else if p.signature(line) {
      counts', stopped' := counts.(signature := counts.signature + 1), true;
    } else if p.boilerplate(line) {
      counts' := counts.(boilerplate := counts.boilerplate + 1);
    } else if p.tracking(line) {
      counts' := counts.(tracking := counts.tracking + 1);
    } else if !Blank(line) {
      StripBounds(line);
      var left, right := Leading(line), Trailing(line);
      kept' := kept + [Span(start + left, start + right, line[left..right])];
    }
  }

  method ScanLines(p: Patterns, lines: seq<string>) returns (kept: seq<Span>, counts: Counts)
    ensures kept == KeptSpans(p, lines, |lines|) && counts == CountsOf(p, lines, |lines|)
  {
    kept, counts := [], Counts(0, 0, 0, 0);
    var cursor: nat, stopped := 0, false;
    for i := 0 to |lines|
      invariant Scanned(p, lines, i, cursor, stopped, kept, counts)
    {
      ScanStep(p, lines, i, cursor, stopped, kept, counts);
      stopped, kept, counts := ScanLine(p, Line(lines[i]), cursor, stopped, kept, counts);
      cursor := cursor + |lines[i]|;
    }
  }

  lemma StopStep(p: Patterns, lines: seq<string>, i: nat)
    requires i < |lines|
    ensures StoppedBefore(p, lines, i + 1) <==> StoppedBefore(p, lines, i) || Stops(p, Line(lines[i]))
  {
    if StoppedBefore(p, lines, i + 1) {
      var j :| 0 <= j < i + 1 && Stops(p, Line(lines[j]));
      assert j == i || StoppedBefore(p, lines, i);
    }
  }

  // ----- which lines are kept, in terms of the patterns

  /** What the source's tests say of a line, in no order. */
  predicate Marks(p: Patterns, line: string) { p.quotedStart(line) || p.forwardedStart(line) }

  /** Text before its last line ends. */
  ghost predicate Chomped(raw: string, line: string) {
    && line <= raw && (line != [] ==> line[|line| - 1] !in {'\r', '\n'})
    && forall k :: |line| <= k < |raw| ==> raw[k] in {'\r', '\n'}
  }

  lemma {:induction false} LineIsChomped(raw: string)
    ensures Chomped(raw, Line(raw))
  {
    if raw == [] || raw[|raw| - 1] !in "\r\n" {
    } else {
      var init := raw[..|raw| - 1];
      LineIsChomped(init);
      assert Line(raw) == Line(init);
    }
  }

  /** The first visible character is a quote mark. */
  ghost predicate QuoteMarked(line: string) {
    exists k :: 0 <= k < |line| && line[k] == '>' && forall j :: 0 <= j < k ==> IsSpace(line[j])
  }

  lemma IsQuoteIff(line: string)
    ensures IsQuote(line) <==> QuoteMarked(line)
  {
    if k :| 0 <= k < |line| && line[k] == '>' && forall j :: 0 <= j < k ==> IsSpace(line[j]) {
      LeadingIs(line, k);
    }
  }

  lemma {:induction false} LeadingIs(line: string, k: nat)
    requires k < |line| && !IsSpace(line[k]) && forall j :: 0 <= j < k ==> IsSpace(line[j])
    ensures Leading(line) == k
  {
    if k == 0 {
    } else {
      LeadingIs(line[1..], k - 1);
    }
  }

  /** The line starts quoted history or a signature: nothing after it is kept. */
  ghost predicate EndsMessage(p: Patterns, line: string) { Marks(p, line) || (p.signature(line) && !QuoteMarked(line)) }

  ghost predicate Ended(p: Patterns, lines: seq<string>, i: nat)
    requires i <= |lines|
  {
    exists j :: 0 <= j < i && EndsMessage(p, Line(lines[j]))
  }

  lemma EndedIff(p: Patterns, lines: seq<string>, i: nat)
    requires i <= |lines|
    ensures StoppedBefore(p, lines, i) <==> Ended(p, lines, i)
  {
    forall j | 0 <= j < i ensures Stops(p, Line(lines[j])) <==> EndsMessage(p, Line(lines[j])) {
      IsQuoteIff(Line(lines[j]));
    }
    if j :| 0 <= j < i && Stops(p, Line(lines[j])) { assert EndsMessage(p, Line(lines[j])); }
    if j :| 0 <= j < i && EndsMessage(p, Line(lines[j])) { assert Stops(p, Line(lines[j])); }
  }

  /** A line is kept if and only if the message has not ended, it is visible, and no pattern matches
      it: neither a history marker, a quote mark, a signature, boilerplate nor a tracking image. */
  lemma KeptIff(p: Patterns, lines: seq<string>, i: nat)
    requires i < |lines|
    ensures var line := Line(lines[i]);
            VerdictAt(p, lines, i).Kept? <==>
            !Ended(p, lines, i) && !Blank(line) && !Marks(p, line) && !QuoteMarked(line) && !p.signature(line) &&
            !p.boilerplate(line) && !p.tracking(line)
  {
    EndedIff(p, lines, i);
    IsQuoteIff(Line(lines[i]));
  }

  /** What the other lines are counted as: history after the end of the message and for quotes and
      markers, else the first of signature, boilerplate and tracking that matches. */
  lemma CountedIff(p: Patterns, lines: seq<string>, i: nat)
    requires i < |lines|
    ensures var line, v := Line(lines[i]), VerdictAt(p, lines, i);
            var open := !Ended(p, lines, i) && !Marks(p, line) && !QuoteMarked(line);
            && (v.Quoted? <==> if Ended(p, lines, i) then !Blank(line) else Marks(p, line) || QuoteMarked(line))
            && (v.Signature? <==> open && p.signature(line))
            && (v.Boilerplate? <==> open && !p.signature(line) && p.boilerplate(line))
            && (v.Tracking? <==> open && !p.signature(line) && !p.boilerplate(line) && p.tracking(line))
  {
    EndedIff(p, lines, i);
    IsQuoteIff(Line(lines[i]));
  }

  /** The kept spans are those of the kept lines. */
  lemma {:induction false} KeptSpansAre(p: Patterns, lines: seq<string>, n: nat, s: Span)
    requires n <= |lines|
    ensures s in KeptSpans(p, lines, n) <==> SomeKept(p, lines, n, s)
  {
    if n == 0 {
    } else {
      KeptSpansAre(p, lines, n - 1, s);
      LastKept(p, lines, n, s);
      SomeKeptNext(p, lines, n - 1, n, s);
    }
  }

  ghost predicate SomeKept(p: Patterns, lines: seq<string>, n: nat, s: Span) {
    exists i: nat :: i < n && KeptAt(p, lines, i, s)
  }

  lemma SomeKeptNext(p: Patterns, lines: seq<string>, n: nat, next: nat, s: Span)
    requires next == n + 1
    ensures SomeKept(p, lines, next, s) <==> SomeKept(p, lines, n, s) || KeptAt(p, lines, n, s)
  {
  }

  /** Line `i` is kept, and `s` is its trimmed text with its place. */
  predicate KeptAt(p: Patterns, lines: seq<string>, i: nat, s: Span) {
    i < |lines| && VerdictAt(p, lines, i).Kept? && s == SpanOf(lines, i)
  }

  lemma LastKept(p: Patterns, lines: seq<string>, n: nat, s: Span)
    requires 0 < n <= |lines|
    ensures s in KeptSpans(p, lines, n) <==> s in KeptSpans(p, lines, n - 1) || KeptAt(p, lines, n - 1, s)
  {
  }

  // ----- the budgeted selection

  datatype Selection = Selection(start: int, end: int, exactHash: string)

  datatype State = Ready | Held | Suppressed | NothingLeft

  datatype HygieneResult = HygieneResult(display: string, interpretation: string, state: State, counts: Counts,
                                         notification: nat, injection: nat,
                                         selections: seq<Selection>, flags: seq<string>, truncated: bool)

  function Texts(spans: seq<Span>): (texts: seq<string>)
    ensures |texts| == |spans|
  {
    seq(|spans|, i requires 0 <= i < |spans| => spans[i].exact)
  }

  function Clamp(n: int): nat { if n < 0 then 0 else n }

  /** `chosen` is the kept texts cut off after `budget` characters: piece by piece a non-empty
      prefix of its span, each but the last whole. */
  ghost predicate CutTo(chosen: seq<string>, spans: seq<Span>, budget: nat) {
    && |chosen| <= |spans|
    && (forall i :: 0 <= i < |chosen| ==> chosen[i] != [] && chosen[i] <= spans[i].exact)
    && (forall i :: 0 <= i < |chosen| - 1 ==> chosen[i] == spans[i].exact)
    && |Concat(chosen)| == Least(budget, |Concat(Texts(spans))|)
    && Concat(chosen) <= Concat(Texts(spans))
  }

  /** Each selection names, in evidence coordinates, the place of the chosen text. */
  ghost predicate Placed(sha: string -> string, offset: int, selections: seq<Selection>, chosen: seq<string>,
                         spans: seq<Span>) {
    && |selections| == |chosen| <= |spans|
    && forall i :: 0 <= i < |chosen| ==>
         selections[i] == Selection(offset + spans[i].start, offset + spans[i].start + |chosen[i]|, sha(chosen[i]))
  }

  lemma PlacedAppend(sha: string -> string, offset: int, selections: seq<Selection>, chosen: seq<string>,
                     spans: seq<Span>, piece: string)
    requires Placed(sha, offset, selections, chosen, spans) && |chosen| < |spans|
    ensures var start := offset + spans[|chosen|].start;
            Placed(sha, offset, selections + [Selection(start, start + |piece|, sha(piece))], chosen + [piece], spans)
  {
  }

  /** The first `k` texts are chosen whole and leave `remaining` of the budget. */
  ghost predicate Filled(chosen: seq<string>, spans: seq<Span>, k: nat, budget: int, remaining: int)
    requires k <= |spans|
  {
    chosen == Texts(spans)[..k] && remaining == budget - |Concat(chosen)| && |Concat(chosen)| <= Clamp(budget)
  }

  lemma FilledStep(chosen: seq<string>, spans: seq<Span>, k: nat, budget: int, remaining: int)
    requires k < |spans| && Filled(chosen, spans, k, budget, remaining) && |spans[k].exact| <= remaining
    ensures Filled(chosen + [spans[k].exact], spans, k + 1, budget, remaining - |spans[k].exact|)
  {
    ConcatAppend(Texts(spans), k);
    assert Texts(spans)[..k + 1] == chosen + [spans[k].exact];
  }

  method CutSelections(sha: string -> string, spans: seq<Span>, offset: int, budget: int)
    returns (selections: seq<Selection>, chosen: seq<string>, truncated: bool)
    requires forall i :: 0 <= i < |spans| ==> spans[i].exact != []
    ensures CutTo(chosen, spans, Clamp(budget)) && Placed(sha, offset, selections, chosen, spans)
    ensures truncated <==> |Concat(Texts(spans))| > Clamp(budget)
  {
    selections, chosen := [], [];
    var remaining := budget;
    for k := 0 to |spans|
      invariant Filled(chosen, spans, k, budget, remaining) && Placed(sha, offset, selections, chosen, spans)
    {
      if remaining <= 0 {
        CutHere(chosen, spans, k, budget, remaining);
        return selections, chosen, true;
      }
      var exact := spans[k].exact;
      var piece := if remaining < |exact| then exact[..remaining] else exact;
      PlacedAppend(sha, offset, selections, chosen, spans, piece);
      selections := selections + [Selection(offset + spans[k].start, offset + spans[k].start + |piece|, sha(piece))];
      if |piece| < |exact| {
        CutInside(chosen, piece, spans, k, budget, remaining);
        return selections, chosen + [piece], true;
      }
      FilledStep(chosen, spans, k, budget, remaining);
      remaining := remaining - |piece|;
      chosen := chosen + [piece];
    }
    AllChosen(chosen, spans, budget, remaining);
    truncated := false;
  }

  lemma AllChosen(chosen: seq<string>, spans: seq<Span>, budget: int, remaining: int)
    requires Filled(chosen, spans, |spans|, budget, remaining) && forall i :: 0 <= i < |spans| ==> spans[i].exact != []
    ensures CutTo(chosen, spans, Clamp(budget)) && |Concat(Texts(spans))| <= Clamp(budget)
  {
    assert Texts(spans)[..|spans|] == Texts(spans);
  }

  lemma ConcatAppend(parts: seq<string>, k: nat)
    requires k < |parts|
    ensures Concat(parts[..k + 1]) == Concat(parts[..k]) + parts[k]
    ensures Concat(parts[..k + 1]) <= Concat(parts)
  {
    assert parts[..k + 1][..k] == parts[..k];
    ConcatPrefix(parts, k + 1);
  }

  lemma {:induction false} ConcatPrefix(parts: seq<string>, k: nat)
    requires k <= |parts|
    ensures Concat(parts[..k]) <= Concat(parts)
  {
    if k == |parts| {
      assert parts[..k] == parts;
    } else {
      ConcatPrefix(parts[..|parts| - 1], k);
      assert parts[..|parts| - 1][..k] == parts[..k];
    }
  }

  lemma CutHere(chosen: seq<string>, spans: seq<Span>, k: nat, budget: int, remaining: int)
    requires k < |spans| && Filled(chosen, spans, k, budget, remaining) && remaining <= 0
    requires forall i :: 0 <= i < |spans| ==> spans[i].exact != []
    ensures CutTo(chosen, spans, Clamp(budget)) && |Concat(Texts(spans))| > Clamp(budget)
  {
    ConcatAppend(Texts(spans), k);
  }

  lemma CutInside(before: seq<string>, piece: string, spans: seq<Span>, k: nat, budget: int, remaining: int)
    requires k < |spans| && Filled(before, spans, k, budget, remaining)
    requires [] < piece < spans[k].exact && |piece| == remaining
    requires forall i :: 0 <= i < |spans| ==> spans[i].exact != []
    ensures CutTo(before + [piece], spans, Clamp(budget)) && |Concat(Texts(spans))| > Clamp(budget)
  {
    ConcatAppend(Texts(spans), k);
    assert (before + [piece])[..k] == before;
  }

  // ----- the whole selection

  /** The outcome, by cases on what the caller knows and on what was kept. */
  ghost predicate Selects(p: Patterns, sha: string -> string, body: string, offset: int, flags: seq<string>,
                          notification: bool, budget: int, r: HygieneResult)
  {
    var lines := SplitKeepEnds(body);
    var spans := KeptSpans(p, lines, |lines|);
    && r.counts == CountsOf(p, lines, |lines|) && r.injection == |flags| &&
        r.notification == (if notification then 1 else 0)
    && r.display == Join("\n", Texts(spans))
    && if notification || flags != [] || spans == [] then
         && r.state == (if notification then Suppressed else if flags != [] then Held else NothingLeft)
         && r.interpretation == [] && r.selections == [] && !r.truncated && r.flags == flags
       else
         && r.flags == []
         && (exists chosen ::
               CutTo(chosen, spans, Clamp(budget)) && Placed(sha, offset, r.selections, chosen, spans) &&
               r.interpretation == Join("\n", chosen) && r.state == if chosen == [] then NothingLeft else Ready)
         && (r.truncated <==> |Concat(Texts(spans))| > Clamp(budget))
  }

  method SelectConversationContent(p: Patterns, sha: string -> string, body: string, offset: int, flags: seq<string>,
                                   notification: bool, budget: int) returns (r: HygieneResult)
    ensures Selects(p, sha, body, offset, flags, notification, budget, r)
  {
    var lines := SplitKeepEnds(body);
    var kept, counts := ScanLines(p, lines);
    SplitTiles(body);
    KeptSpansExact(p, body, lines, |lines|);
    DisplayIsJoin(body, kept, Offset(lines, |lines|));
    var display := Strip(Join("\n", Texts(kept)));
    var note := if notification then 1 else 0;
    if notification {
      return HygieneResult(display, "", Suppressed, counts, note, |flags|, [], flags, false);
    }
    if flags != [] {
      return HygieneResult(display, "", Held, counts, note, |flags|, [], flags, false);
    }
    if display == "" {
      return HygieneResult("", "", NothingLeft, counts, note, |flags|, [], [], false);
    }
    assert kept != [];
    var selections, chosen, truncated := CutSelections(sha, kept, offset, budget);
    if chosen != [] { JoinEnds("\n", chosen); }
    var interpretation := Join("\n", chosen);
    r := HygieneResult(display, interpretation, if interpretation != "" then Ready else NothingLeft,
                       counts, note, |flags|,
                       selections, [], truncated);
  }

  /** Stripping the joined display removes nothing, and leaves nothing only if nothing was kept. */
  lemma DisplayIsJoin(body: string, spans: seq<Span>, limit: nat)
    requires ExactSpans(body, spans, limit)
    ensures Strip(Join("\n", Texts(spans))) == Join("\n", Texts(spans))
    ensures Join("\n", Texts(spans)) == [] <==> spans == []
    ensures forall i :: 0 <= i < |spans| ==> spans[i].exact != []
  {
    if spans != [] {
      var texts := Texts(spans);
      forall i | 0 <= i < |texts| ensures texts[i] != [] && !IsSpace(texts[i][0]) &&
          !IsSpace(texts[i][|texts[i]| - 1]) {
        TrimmedEnds(texts[i]);
      }
      JoinEnds("\n", texts);
      StripTrimmed(Join("\n", texts));
    }
  }

  lemma TrimmedEnds(s: string)
    requires s != [] && Strip(s) == s
    ensures !IsSpace(s[0]) && !IsSpace(s[|s| - 1])
  {
    StripBounds(s);
    assert |Strip(s)| == Trailing(s) - Leading(s);
  }

  /** The selection's text is what the body holds at its place, and ends by `limit`. */
  ghost predicate Selected(sha: string -> string, body: string, offset: int, s: Selection, limit: nat) {
    0 <= s.start - offset < s.end - offset <= |body| && s.end - offset <= limit &&
    s.exactHash == sha(body[s.start - offset..s.end - offset])
  }

  lemma SelectionQuotes(sha: string -> string, body: string, offset: int, s: Selection, span: Span, piece: string,
                        limit: nat)
    requires TrimmedSpan(body, span) && span.end <= limit && piece != [] && piece <= span.exact
    requires s == Selection(offset + span.start, offset + span.start + |piece|, sha(piece))
    ensures Selected(sha, body, offset, s, limit) && s.end <= offset + span.end
  {
    SliceOfSlice(body, span.start, span.end, 0, |piece|);
    assert piece == span.exact[..|piece|];
  }

  /** The selections quote the body exactly, in order and without overlap, none past a stop
      marker (`stop` is any marker, or the end). */
  lemma SelectionsExact(p: Patterns, sha: string -> string, body: string, offset: int, flags: seq<string>,
                        notification: bool, budget: int, r: HygieneResult, stop: nat)
    requires Selects(p, sha, body, offset, flags, notification, budget, r)
    requires stop <= |SplitKeepEnds(body)|
    requires stop < |SplitKeepEnds(body)| ==> Stops(p, Line(SplitKeepEnds(body)[stop]))
    ensures forall i :: 0 <= i < |r.selections| ==>
              Selected(sha, body, offset, r.selections[i], Offset(SplitKeepEnds(body), stop))
    ensures forall i, j :: 0 <= i < j < |r.selections| ==> r.selections[i].end <= r.selections[j].start
  {
    if r.selections != [] {
      var lines := SplitKeepEnds(body);
      SplitTiles(body);
      KeptBeforeStop(p, lines, |lines|, stop);
      KeptSpansExact(p, body, lines, stop);
      var spans, chosen := ChosenPieces(p, sha, body, offset, flags, notification, budget, r);
      PiecesExact(sha, body, offset, r.selections, chosen, spans, Clamp(budget), Offset(lines, stop));
    }
  }

  lemma ChosenPieces(p: Patterns, sha: string -> string, body: string, offset: int, flags: seq<string>,
                     notification: bool, budget: int, r: HygieneResult) returns (spans: seq<Span>, chosen: seq<string>)
    requires Selects(p, sha, body, offset, flags, notification, budget, r)
    requires r.selections != [] || r.state == Ready
    ensures spans == KeptSpans(p, SplitKeepEnds(body), |SplitKeepEnds(body)|)
    ensures CutTo(chosen, spans, Clamp(budget)) && Placed(sha, offset, r.selections, chosen, spans)
  {
    spans := KeptSpans(p, SplitKeepEnds(body), |SplitKeepEnds(body)|);
    chosen :| CutTo(chosen, spans, Clamp(budget)) && Placed(sha, offset, r.selections, chosen, spans);
  }

  lemma PiecesExact(sha: string -> string, body: string, offset: int, selections: seq<Selection>, chosen: seq<string>,
                    spans: seq<Span>, budget: nat, limit: nat)
    requires CutTo(chosen, spans, budget) && Placed(sha, offset, selections, chosen, spans)
    requires ExactSpans(body, spans, limit)
    ensures forall i :: 0 <= i < |selections| ==> Selected(sha, body, offset, selections[i], limit)
    ensures forall i, j :: 0 <= i < j < |selections| ==> selections[i].end <= selections[j].start
  {
    forall i | 0 <= i < |selections|
      ensures Selected(sha, body, offset, selections[i], limit)
      ensures selections[i].start == offset + spans[i].start && selections[i].end <= offset + spans[i].end
    {
      SelectionQuotes(sha, body, offset, selections[i], spans[i], chosen[i], limit);
    }
  }

  /** A ready result selects as many characters as the budget and the kept text allow. */
  lemma SelectionLength(p: Patterns, sha: string -> string, body: string, offset: int, flags: seq<string>,
                        notification: bool, budget: int, r: HygieneResult)
    requires Selects(p, sha, body, offset, flags, notification, budget, r) && r.state == Ready
    ensures var kept := |Concat(Texts(KeptSpans(p, SplitKeepEnds(body), |SplitKeepEnds(body)|)))|;
            SelectedLength(r.selections) == Least(Clamp(budget), kept) &&
            (r.truncated <==> SelectedLength(r.selections) < kept)
  {
    var spans, chosen := ChosenPieces(p, sha, body, offset, flags, notification, budget, r);
    SelectedLengthIsConcat(sha, offset, r.selections, chosen, spans);
  }

  function SelectedLength(selections: seq<Selection>): int {
    if selections == [] then 0
    else
      var last := selections[|selections| - 1];
      SelectedLength(selections[..|selections| - 1]) + last.end - last.start
  }

  lemma {:induction false} SelectedLengthIsConcat(sha: string -> string, offset: int, selections: seq<Selection>,
                                                  chosen: seq<string>, spans: seq<Span>)
    requires Placed(sha, offset, selections, chosen, spans)
    ensures SelectedLength(selections) == |Concat(chosen)|
  {
    if selections == [] {
    } else {
      SelectedLengthIsConcat(sha, offset, selections[..|selections| - 1], chosen[..|chosen| - 1], spans);
    }
  }
}
