/** The line-structure extractor in its two forms: the legacy candidate drafts
    (packs/activity_normalizer/extractors.py) and the same findings as anchored annotations
    (packs/activity_normalizer/annotation_extractor.py). */
module StructureExtraction {
  import opened Kinds
  import opened Prelude
  import opened Text

  const LINE_KINDS := [Preference, Task, Profile, Skill, Eval]

  /** The regular expressions and str.casefold: `matches` tests a line, `body` is the line without
      the kind's prefix, `fields` the draft's extra fields. */
  datatype Rules = Rules(fold: string -> string, memoryBody: string -> string, matches: (Kind, string) -> bool,
                         body: (Kind, string) -> string, confidence: Kind -> real,
                         fields: (Kind, string) -> map<string, string>)

  datatype Draft = Draft(kind: Kind, text: string, confidence: real, fields: map<string, string>)

  function MakeDraft(rules: Rules, kind: Kind, text: string): Draft {
    Draft(kind, text, rules.confidence(kind), rules.fields(kind, text))
  }

  // ----- the legacy drafts

  /** Every line, cleaned. */
  function Cleaned(lines: seq<string>, limit: nat): (r: seq<string>)
    ensures |r| == |lines|
  {
    seq(|lines|, i requires 0 <= i < |lines| => Clean(Body(lines[i]), limit))
  }

  /** The non-empty ones of the first `n`. */
  function Visible(cleaned: seq<string>, n: nat): seq<string>
    requires n <= |cleaned|
  {
    if n == 0 then [] else Visible(cleaned, n - 1) + if cleaned[n - 1] != "" then [cleaned[n - 1]] else []
  }

  function AllCleanLines(content: string, limit: nat): seq<string> {
    var cleaned := Cleaned(SplitKeepEnds(content), limit);
    var lines := Visible(cleaned, |cleaned|);
    if lines == [] && !Blank(content) then [Clean(content, limit)] else lines
  }

  function MemoryText(rules: Rules, first: string): string {
    var stripped := Strip(rules.memoryBody(first));
    if stripped != "" then stripped else first
  }

  function LineDrafts(rules: Rules, line: string, n: nat): seq<Draft>
    requires n <= |LINE_KINDS|
  {
    if n == 0 then []
    else
      var kind := LINE_KINDS[n - 1];
      var text := rules.body(kind, line);
      LineDrafts(rules, line, n - 1) +
      if rules.matches(kind, line) && text != "" then [MakeDraft(rules, kind, text)] else []
  }

  function AllLineDrafts(rules: Rules, lines: seq<string>, n: nat): seq<Draft>
    requires n <= |lines|
  {
    if n == 0 then [] else AllLineDrafts(rules, lines, n - 1) + LineDrafts(rules, lines[n - 1], |LINE_KINDS|)
  }

  /** Everything the scan finds, before duplicates are dropped. */
  function Found(rules: Rules, lines: seq<string>): seq<Draft> {
    if lines == [] then []
    else [MakeDraft(rules, Memory, MemoryText(rules, lines[0]))] + AllLineDrafts(rules, lines, |lines|)
  }

  predicate SameKey(rules: Rules, d: Draft, e: Draft) { d.kind == e.kind && rules.fold(d.text) == rules.fold(e.text) }

  predicate Repeats(rules: Rules, drafts: seq<Draft>, i: nat)
    requires i < |drafts|
  {
    exists j :: 0 <= j < i && SameKey(rules, drafts[j], drafts[i])
  }

  /** The first draft of each (kind, folded text). */
  function Firsts(rules: Rules, drafts: seq<Draft>, n: nat): seq<Draft>
    requires n <= |drafts|
  {
    if n == 0 then [] else Firsts(rules, drafts, n - 1) + if Repeats(rules, drafts, n - 1) then [] else [drafts[n - 1]]
  }

  /** The cap is tested after a draft is added, so one draft always passes. */
  function Cap(max: int): nat { if max < 1 then 1 else max }

  function LegacyDrafts(rules: Rules, content: string, limit: nat, max: int): seq<Draft> {
    var found := Found(rules, AllCleanLines(content, limit));
    Take(Firsts(rules, found, |found|), Cap(max))
  }

  method ScanLine(rules: Rules, line: string) returns (drafts: seq<Draft>)
    ensures drafts == LineDrafts(rules, line, |LINE_KINDS|)
  {
    drafts := [];
    for k := 0 to |LINE_KINDS|
      invariant drafts == LineDrafts(rules, line, k)
    {
      var kind := LINE_KINDS[k];
      if rules.matches(kind, line) {
        var text := rules.body(kind, line);
        if text != "" { drafts := drafts + [MakeDraft(rules, kind, text)]; }
      }
    }
  }

  method FindDrafts(rules: Rules, lines: seq<string>) returns (drafts: seq<Draft>)
    ensures drafts == Found(rules, lines)
  {
    drafts := [];
    if lines != [] {
      var more := ScanLines(rules, lines);
      drafts := [MakeDraft(rules, Memory, MemoryText(rules, lines[0]))] + more;
    }
  }

  method ScanLines(rules: Rules, lines: seq<string>) returns (drafts: seq<Draft>)
    ensures drafts == AllLineDrafts(rules, lines, |lines|)
  {
    drafts := [];
    for i := 0 to |lines|
      invariant drafts == AllLineDrafts(rules, lines, i)
    {
      var more := ScanLine(rules, lines[i]);
      drafts := drafts + more;
    }
  }

  method DropRepeats(rules: Rules, drafts: seq<Draft>, max: int) returns (unique: seq<Draft>)
    ensures unique == Take(Firsts(rules, drafts, |drafts|), Cap(max))
  {
    unique := [];
    var seen: set<(Kind, string)> := {};
    for i := 0 to |drafts|
      invariant unique == Firsts(rules, drafts, i) && |unique| < Cap(max)
      invariant forall key :: key in seen <==>
                  exists j :: 0 <= j < i && key == (drafts[j].kind, rules.fold(drafts[j].text))
    {
      var key := (drafts[i].kind, rules.fold(drafts[i].text));
      assert key in seen <==> Repeats(rules, drafts, i);
      if key !in seen {
        seen := seen + {key};
        unique := unique + [drafts[i]];
        if |unique| >= max {
          FirstsPrefix(rules, drafts, i + 1, |drafts|);
          return;
        }
      }
    }
  }

  lemma {:induction false} FirstsPrefix(rules: Rules, drafts: seq<Draft>, i: nat, n: nat)
    requires i <= n <= |drafts|
    ensures Firsts(rules, drafts, i) <= Firsts(rules, drafts, n)
  {
    if i == n {
    } else {
      FirstsPrefix(rules, drafts, i, n - 1);
    }
  }

  method LegacyExtract(rules: Rules, content: string, limit: nat, max: int) returns (drafts: seq<Draft>)
    ensures drafts == LegacyDrafts(rules, content, limit, max)
  {
    var lines := AllCleanLines(content, limit);
    var found := FindDrafts(rules, lines);
    drafts := DropRepeats(rules, found, max);
  }

  // ----- facts about the drafts

  /** The first draft alone is a memory draft. */
  ghost predicate MemoryFirst(drafts: seq<Draft>) {
    forall i :: 0 <= i < |drafts| ==> (drafts[i].kind == Memory <==> i == 0)
  }

  lemma FirstStays(rules: Rules, drafts: seq<Draft>, n: nat)
    requires 0 < n <= |drafts|
    ensures Firsts(rules, drafts, n) != [] && Firsts(rules, drafts, n)[0] == drafts[0]
  {
    FirstsPrefix(rules, drafts, 1, n);
    assert !Repeats(rules, drafts, 0);
    assert Firsts(rules, drafts, 1) == [drafts[0]];
  }

  lemma {:induction false} FirstsMemory(rules: Rules, drafts: seq<Draft>, n: nat)
    requires n <= |drafts| && MemoryFirst(drafts)
    ensures MemoryFirst(Firsts(rules, drafts, n))
  {
    if n == 0 {
    } else {
      FirstsMemory(rules, drafts, n - 1);
      FirstStays(rules, drafts, n);
      if n > 1 { FirstStays(rules, drafts, n - 1); }
    }
  }

  /** At most one draft is a memory draft, and it is the first. */
  lemma MemoryIsFirst(rules: Rules, lines: seq<string>, n: nat)
    requires n <= |Found(rules, lines)|
    ensures MemoryFirst(Firsts(rules, Found(rules, lines), n))
  {
    AllLineDraftsKinds(rules, lines, |lines|);
    assert forall d :: d in AllLineDrafts(rules, lines, |lines|) ==> d.kind != Memory;
    FirstsMemory(rules, Found(rules, lines), n);
  }

  lemma {:induction false} AllLineDraftsKinds(rules: Rules, lines: seq<string>, n: nat)
    requires n <= |lines|
    ensures forall d :: d in AllLineDrafts(rules, lines, n) ==> d.kind != Memory && d.text != ""
  {
    if n == 0 {
    } else {
      AllLineDraftsKinds(rules, lines, n - 1);
      LineDraftsKinds(rules, lines[n - 1], |LINE_KINDS|);
    }
  }

  lemma {:induction false} LineDraftsKinds(rules: Rules, line: string, n: nat)
    requires n <= |LINE_KINDS|
    ensures forall d :: d in LineDrafts(rules, line, n) ==> d.kind != Memory && d.text != ""
  {
    if n == 0 {
    } else {
      LineDraftsKinds(rules, line, n - 1);
      assert LINE_KINDS[n - 1] != Memory;
    }
  }

  lemma {:induction false} FirstsFromFound(rules: Rules, drafts: seq<Draft>, n: nat)
    requires n <= |drafts|
    ensures forall d :: d in Firsts(rules, drafts, n) ==> d in drafts
  {
    if n == 0 {
    } else {
      FirstsFromFound(rules, drafts, n - 1);
    }
  }

  lemma {:induction false} VisibleLines(cleaned: seq<string>, n: nat)
    requires n <= |cleaned|
    ensures forall line :: line in Visible(cleaned, n) ==> line != ""
    ensures forall i :: 0 <= i < n && cleaned[i] != "" ==> Visible(cleaned, n) != []
  {
    if n == 0 {
    } else {
      VisibleLines(cleaned, n - 1);
    }
  }

  lemma CleanLinesVisible(content: string, limit: nat)
    requires limit > 0
    ensures forall line :: line in AllCleanLines(content, limit) ==> line != ""
  {
    var cleaned := Cleaned(SplitKeepEnds(content), limit);
    VisibleLines(cleaned, |cleaned|);
    CleanEmpty(content, limit);
  }

  lemma {:induction false} VisibleIff(cleaned: seq<string>, n: nat, line: string)
    requires n <= |cleaned|
    ensures line in Visible(cleaned, n) <==> line != "" && exists i :: 0 <= i < n && cleaned[i] == line
  {
    if n == 0 {
    } else {
      VisibleIff(cleaned, n - 1, line);
    }
  }

  lemma {:induction false} VisibleNone(cleaned: seq<string>, n: nat)
    requires n <= |cleaned|
    ensures Visible(cleaned, n) == [] <==> forall i :: 0 <= i < n ==> cleaned[i] == ""
  {
    if n == 0 {
    } else {
      VisibleNone(cleaned, n - 1);
    }
  }

  /** Lines, and the drafts of lines, come in the order of the text. */
  lemma {:induction false} LinesInOrder(cleaned: seq<string>, n: nat, m: nat)
    requires n <= m <= |cleaned|
    ensures Visible(cleaned, n) <= Visible(cleaned, m)
    decreases m
  {
    if n == m {
    } else {
      LinesInOrder(cleaned, n, m - 1);
    }
  }

  lemma {:induction false} DraftsInOrder(rules: Rules, lines: seq<string>, n: nat, m: nat)
    requires n <= m <= |lines|
    ensures AllLineDrafts(rules, lines, n) <= AllLineDrafts(rules, lines, m)
    decreases m
  {
    if n == m {
    } else {
      DraftsInOrder(rules, lines, n, m - 1);
    }
  }

  lemma CleanedBlank(lines: seq<string>, limit: nat)
    requires limit > 0
    ensures BlankBodies(lines) <==> forall i :: 0 <= i < |lines| ==> Cleaned(lines, limit)[i] == ""
  {
    forall i | 0 <= i < |lines| ensures Cleaned(lines, limit)[i] == "" <==> Blank(Body(lines[i])) {
      CleanEmpty(Body(lines[i]), limit);
    }
  }

  /** With a positive text limit the extractors see exactly the cleaned lines that are not empty; only
      a blank content has none. */
  lemma CleanLineIff(content: string, limit: nat, line: string)
    requires limit > 0
    ensures line in AllCleanLines(content, limit) <==>
            line != "" && exists i :: 0 <= i < |SplitKeepEnds(content)| &&
                                      Clean(Body(SplitKeepEnds(content)[i]), limit) == line
    ensures AllCleanLines(content, limit) == [] <==> Blank(content)
  {
    var lines := SplitKeepEnds(content);
    var cleaned := Cleaned(lines, limit);
    VisibleNone(cleaned, |cleaned|);
    CleanedBlank(lines, limit);
    BlankLines(content);
    VisibleIff(cleaned, |cleaned|, line);
    if i :| 0 <= i < |lines| && Clean(Body(lines[i]), limit) == line { assert cleaned[i] == line; }
  }

  lemma FoundVisible(rules: Rules, lines: seq<string>)
    requires forall line :: line in lines ==> line != ""
    ensures forall d :: d in Found(rules, lines) ==> d.text != ""
  {
    AllLineDraftsKinds(rules, lines, |lines|);
    if lines != [] { assert lines[0] in lines; }
  }

  /** With a positive text limit no draft is empty. */
  lemma DraftsVisible(rules: Rules, content: string, limit: nat, max: int)
    requires limit > 0
    ensures forall d :: d in LegacyDrafts(rules, content, limit, max) ==> d.text != ""
  {
    var lines := AllCleanLines(content, limit);
    CleanLinesVisible(content, limit);
    FoundVisible(rules, lines);
    FirstsFromFound(rules, Found(rules, lines), |Found(rules, lines)|);
  }

  // ----- what is found, rule by rule

  /** Line `i` matches the rule of the draft's kind, and the draft says what that rule makes of it. */
  ghost predicate Says(rules: Rules, lines: seq<string>, i: nat, d: Draft) {
    && i < |lines| && d.kind != Memory && rules.matches(d.kind, lines[i]) && d.text == rules.body(d.kind, lines[i])
    && d.text != "" && d.confidence == rules.confidence(d.kind) && d.fields == rules.fields(d.kind, d.text)
  }

  /** Within a line: preferences, tasks, profiles, skills, evaluations. */
  function Place(kind: Kind): nat {
    match kind
    case Memory => 0
    case Preference => 1
    case Task => 2
    case Profile => 3
    case Skill => 4
    case Eval => 5
  }

  lemma {:induction false} LineDraftsIff(rules: Rules, line: string, n: nat, d: Draft)
    requires n <= |LINE_KINDS|
    ensures d in LineDrafts(rules, line, n) <==> Says(rules, [line], 0, d) && Place(d.kind) <= n
  {
    if n == 0 {
    } else {
      LineDraftsIff(rules, line, n - 1, d);
      assert Place(LINE_KINDS[n - 1]) == n;
    }
  }

  lemma {:induction false} LineDraftsOrdered(rules: Rules, line: string, n: nat, i: nat, j: nat)
    requires n <= |LINE_KINDS| && i < j < |LineDrafts(rules, line, n)|
    ensures Place(LineDrafts(rules, line, n)[i].kind) < Place(LineDrafts(rules, line, n)[j].kind)
    decreases n
  {
    var before := LineDrafts(rules, line, n - 1);
    if j < |before| {
      LineDraftsOrdered(rules, line, n - 1, i, j);
    } else {
      LineDraftsIff(rules, line, n - 1, before[i]);
      assert Place(LINE_KINDS[n - 1]) == n;
    }
  }

  lemma {:induction false} AllLineDraftsIff(rules: Rules, lines: seq<string>, n: nat, d: Draft)
    requires n <= |lines|
    ensures d in AllLineDrafts(rules, lines, n) <==> exists i: nat :: i < n && Says(rules, lines, i, d)
  {
    if n == 0 {
    } else {
      AllLineDraftsIff(rules, lines, n - 1, d);
      LineDraftsIff(rules, lines[n - 1], |LINE_KINDS|, d);
      assert Says(rules, lines, n - 1, d) <==> Says(rules, [lines[n - 1]], 0, d);
    }
  }

  /** The scan finds exactly: a memory of the first line, and for every line and every rule it matches
      the draft of that rule. */
  lemma FoundIff(rules: Rules, lines: seq<string>, d: Draft)
    requires lines != []
    ensures d in Found(rules, lines) <==>
            (exists i: nat :: Says(rules, lines, i, d)) ||
            (d.kind == Memory && d.confidence == rules.confidence(Memory) && d.fields == rules.fields(Memory, d.text) &&
             d.text == if Strip(rules.memoryBody(lines[0])) != "" then Strip(rules.memoryBody(lines[0])) else lines[0])
  {
    AllLineDraftsIff(rules, lines, |lines|, d);
    AllLineDraftsKinds(rules, lines, |lines|);
    if i: nat :| Says(rules, lines, i, d) { assert i < |lines|; }
  }

  lemma NothingFound(rules: Rules)
    ensures Found(rules, []) == []
  {
  }

  /** Kept draft `j` is the first of its kind and folded text, and stands for it. */
  ghost predicate StandsFor(rules: Rules, firsts: seq<Draft>, j: nat, d: Draft) {
    j < |firsts| && firsts[j].kind == d.kind && rules.fold(firsts[j].text) == rules.fold(d.text)
  }

  lemma {:induction false} FirstsStand(rules: Rules, drafts: seq<Draft>, n: nat, k: nat) returns (j: nat)
    requires k < n <= |drafts|
    ensures StandsFor(rules, Firsts(rules, drafts, n), j, drafts[k])
    decreases n, k
  {
    var before := Firsts(rules, drafts, n - 1);
    if k < n - 1 {
      j := FirstsStand(rules, drafts, n - 1, k);
    } else if Repeats(rules, drafts, k) {
      var i :| 0 <= i < k && SameKey(rules, drafts[i], drafts[k]);
      j := FirstsStand(rules, drafts, n - 1, i);
    } else {
      j := |before|;
    }
  }

  lemma {:induction false} FirstsFrom(rules: Rules, drafts: seq<Draft>, n: nat, j: nat) returns (k: nat)
    requires n <= |drafts| && j < |Firsts(rules, drafts, n)|
    ensures k < n && drafts[k] == Firsts(rules, drafts, n)[j]
  {
    if j < |Firsts(rules, drafts, n - 1)| {
      k := FirstsFrom(rules, drafts, n - 1, j);
    } else {
      k := n - 1;
    }
  }

  lemma {:induction false} FirstsDistinct(rules: Rules, drafts: seq<Draft>, n: nat, i: nat, j: nat)
    requires n <= |drafts| && i < j < |Firsts(rules, drafts, n)|
    ensures !SameKey(rules, Firsts(rules, drafts, n)[i], Firsts(rules, drafts, n)[j])
    decreases n
  {
    var before := Firsts(rules, drafts, n - 1);
    if j < |before| {
      FirstsDistinct(rules, drafts, n - 1, i, j);
    } else {
      var k := FirstsFrom(rules, drafts, n - 1, i);
      assert !Repeats(rules, drafts, n - 1) && drafts[k] == before[i];
    }
  }

  /** No two drafts of an extraction share kind and folded text; there are no more than the cap, of at
      least one. */
  lemma DraftsDistinct(rules: Rules, content: string, limit: nat, max: int, i: nat, j: nat)
    requires i < j < |LegacyDrafts(rules, content, limit, max)|
    ensures var drafts := LegacyDrafts(rules, content, limit, max);
            |drafts| <= (if max < 1 then 1 else max) &&
            (drafts[i].kind != drafts[j].kind || rules.fold(drafts[i].text) != rules.fold(drafts[j].text))
  {
    var found := Found(rules, AllCleanLines(content, limit));
    FirstsDistinct(rules, found, |found|, i, j);
  }

  /** Every finding is represented, unless the cap has been reached. */
  lemma FindingsStand(rules: Rules, content: string, limit: nat, max: int, k: nat) returns (j: nat)
    requires k < |Found(rules, AllCleanLines(content, limit))|
    requires |LegacyDrafts(rules, content, limit, max)| < max
    ensures var found := Found(rules, AllCleanLines(content, limit));
            StandsFor(rules, LegacyDrafts(rules, content, limit, max), j, found[k])
  {
    var found := Found(rules, AllCleanLines(content, limit));
    j := FirstsStand(rules, found, |found|, k);
  }

  // ----- facets

  function FacetOf(kind: Kind): string {
    match kind
    case Memory => "activity.memory"
    case Preference => "activity.preference"
    case Task => "activity.task"
    case Profile => "activity.profile"
    case Skill => "activity.skill"
    case Eval => "activity.eval"
  }

  function KindOf(facet: string): Option<Kind> {
    if facet == "activity.memory" then Some(Memory)
    else if facet == "activity.preference" then Some(Preference)
    else if facet == "activity.task" then Some(Task)
    else if facet == "activity.profile" then Some(Profile)
    else if facet == "activity.skill" then Some(Skill)
    else if facet == "activity.eval" then Some(Eval)
    else None
  }

  lemma FacetsInvert(kind: Kind)
    ensures KindOf(FacetOf(kind)) == Some(kind)
  {
    assert "activity.memory"[9] == 'm' && "activity.preference"[10] == 'r' && "activity.task"[9] == 't';
    assert "activity.profile"[9] == 'p' && "activity.profile"[11] == 'o' && "activity.preference"[11] == 'e';
    assert "activity.skill"[9] == 's' && "activity.eval"[9] == 'e' && "activity.preference"[9] == 'p';
  }

  predicate Requested(facets: seq<string>, kind: Kind) {
    exists i :: 0 <= i < |facets| && KindOf(facets[i]) == Some(kind)
  }

  /** A facet asks for the one kind it is the facet of; foreign facets ask for nothing. */
  lemma RequestedIff(facets: seq<string>, kind: Kind)
    ensures Requested(facets, kind) <==> FacetOf(kind) in facets
  {
    FacetsInvert(kind);
    forall f | f in facets && KindOf(f) == Some(kind) ensures f == FacetOf(kind) {
    }
  }

  // ----- anchors

  /** A line as it stands in the content, and cleaned. */
  datatype CleanSpan = CleanSpan(raw: Span, cleaned: string)

  /** One span per visible line, quoting the content exactly. */
  ghost predicate SpansOf(content: string, lines: seq<string>, spans: seq<CleanSpan>) {
    && |spans| == |lines|
    && forall i :: 0 <= i < |spans| ==> Quotes(content, spans[i].raw) && spans[i].cleaned == lines[i]
  }

  /** The search for a line never fails: the line itself lies at or after the cursor. */
  lemma LineFound(content: string, lines: seq<string>, i: nat, cursor: nat)
    requires lines == SplitKeepEnds(content) && i < |lines| && cursor <= Offset(lines, i)
    ensures var start := Find(content, Body(lines[i]), cursor);
            0 <= start && start + |Body(lines[i])| <= Offset(lines, i + 1) <= |content|
  {
    LinesTile(content, i);
    PrefixFound(content, Body(lines[i]), cursor, Offset(lines, i), Offset(lines, i + 1));
  }

  lemma PrefixFound(content: string, part: string, cursor: nat, from: nat, to: nat)
    requires cursor <= from <= to <= |content| && part <= content[from..to]
    ensures 0 <= Find(content, part, cursor) <= from
  {
    assert content[from..from + |part|] == content[from..to][..|part|];
    assert At(content, from, part);
  }

  method LineSpans(content: string, limit: nat) returns (spans: seq<CleanSpan>)
    ensures SpansOf(content, AllCleanLines(content, limit), spans)
  {
    spans := VisibleLineSpans(content, SplitKeepEnds(content), limit);
    if spans == [] && !Blank(content) {
      spans := WholeContentSpan(content, limit);
    }
  }

  method VisibleLineSpans(content: string, lines: seq<string>, limit: nat) returns (spans: seq<CleanSpan>)
    requires lines == SplitKeepEnds(content)
    ensures SpansOf(content, Visible(Cleaned(lines, limit), |lines|), spans)
  {
    spans := [];
    var cursor: nat := 0;
    for i := 0 to |lines|
      invariant cursor <= Offset(lines, i)
      invariant SpansOf(content, Visible(Cleaned(lines, limit), i), spans)
    {
      var span := LineSpan(content, lines, i, cursor, limit);
      cursor := span.raw.end;
      SpansAppend(content, Cleaned(lines, limit), i, spans, span);
      if span.cleaned != "" { spans := spans + [span]; }
    }
  }

  method LineSpan(content: string, lines: seq<string>, i: nat, cursor: nat, limit: nat) returns (span: CleanSpan)
    requires lines == SplitKeepEnds(content) && i < |lines| && cursor <= Offset(lines, i)
    ensures Quotes(content, span.raw) && span.raw.end <= Offset(lines, i + 1) &&
            span.cleaned == Cleaned(lines, limit)[i]
  {
    LineFound(content, lines, i, cursor);
    span := FoundSpan(content, Body(lines[i]), Clean(Body(lines[i]), limit), cursor);
  }

  lemma SpansAppend(content: string, cleaned: seq<string>, i: nat, spans: seq<CleanSpan>, s: CleanSpan)
    requires i < |cleaned| && SpansOf(content, Visible(cleaned, i), spans) && Quotes(content, s.raw) &&
             s.cleaned == cleaned[i]
    ensures SpansOf(content, Visible(cleaned, i + 1), if s.cleaned != "" then spans + [s] else spans)
  {
  }

  method WholeContentSpan(content: string, limit: nat) returns (spans: seq<CleanSpan>)
    requires !Blank(content)
    ensures SpansOf(content, [Clean(content, limit)], spans)
  {
    StrippedFound(content);
    var span := FoundSpan(content, Strip(content), Clean(content, limit), 0);
    spans := [span];
  }

  method FoundSpan(content: string, text: string, cleaned: string, from: nat) returns (span: CleanSpan)
    requires Find(content, text, from) >= 0
    ensures Quotes(content, span.raw) && span.cleaned == cleaned && span.raw.end == Find(content, text, from) + |text|
  {
    var start := Find(content, text, from);
    span := CleanSpan(Span(start, start + |text|, text), cleaned);
  }

  lemma StrippedFound(content: string)
    requires !Blank(content)
    ensures Find(content, Strip(content), 0) >= 0
  {
    StripBounds(content);
    assert At(content, Leading(content), Strip(content));
  }

  predicate Related(rules: Rules, text: string, s: CleanSpan) {
    Contains(rules.fold(s.cleaned), rules.fold(text)) || Contains(rules.fold(text), rules.fold(s.cleaned))
  }

  /** A line and a text are related when one is part of the other, case apart. */
  lemma RelatedIff(rules: Rules, text: string, s: CleanSpan)
    ensures var t, line := rules.fold(text), rules.fold(s.cleaned);
            Related(rules, text, s) <==>
              || (exists i, j :: 0 <= i <= j <= |line| && line[i..j] == t)
              || (exists i, j :: 0 <= i <= j <= |t| && t[i..j] == line)
  {
    ContainsIff(rules.fold(s.cleaned), rules.fold(text));
    ContainsIff(rules.fold(text), rules.fold(s.cleaned));
  }

  lemma ContainsIff(s: string, part: string)
    ensures Contains(s, part) <==> exists i, j :: 0 <= i <= j <= |s| && s[i..j] == part
  {
    if i :| 0 <= i <= |s| && At(s, i, part) { assert s[i..i + |part|] == part; }
    if i, j :| 0 <= i <= j <= |s| && s[i..j] == part { assert At(s, i, part); }
  }

  /** The anchor: the first verbatim occurrence of the text; without one, the first line related
      to it; without either, the first line. */
  ghost predicate AnchorOf(rules: Rules, content: string, text: string, spans: seq<CleanSpan>, anchor: Span) {
    && Quotes(content, anchor)
    && if Contains(content, text) then anchor.exact == text && anchor.start == Find(content, text, 0)
       else
         exists k :: 0 <= k < |spans| && anchor == spans[k].raw &&
                     (Related(rules, text, spans[k]) ||
                      (k == 0 && forall m :: 0 <= m < |spans| ==> !Related(rules, text, spans[m]))) &&
                     forall m :: 0 <= m < k ==> !Related(rules, text, spans[m])
  }

  method Anchor(rules: Rules, content: string, text: string, spans: seq<CleanSpan>) returns (anchor: Span)
    requires spans != []
    requires forall i :: 0 <= i < |spans| ==> Quotes(content, spans[i].raw)
    ensures AnchorOf(rules, content, text, spans, anchor)
  {
    var direct := Find(content, text, 0);
    if direct >= 0 { return Span(direct, direct + |text|, text); }
    for k := 0 to |spans|
      invariant forall m :: 0 <= m < k ==> !Related(rules, text, spans[m])
    {
      if Related(rules, text, spans[k]) { return spans[k].raw; }
    }
    return spans[0].raw;
  }

  // ----- the annotations

  datatype Annotation = Annotation(facet: string, kind: Kind, text: string, fields: map<string, string>,
                                   confidence: real,
                                   anchor: Span, ordinal: nat)

  /** Positions, in the unfiltered list, of the drafts of requested kinds. */
  function Ordinals(drafts: seq<Draft>, facets: seq<string>, n: nat): (r: seq<nat>)
    requires n <= |drafts|
    ensures forall k :: 0 <= k < |r| ==> r[k] < n
  {
    if n == 0 then []
    else Ordinals(drafts, facets, n - 1) + if Requested(facets, drafts[n - 1].kind) then [n - 1] else []
  }

  /** The annotation says what the draft says, with the draft's unfiltered ordinal. */
  predicate Carries(a: Annotation, d: Draft, ordinal: nat) {
    && a.facet == FacetOf(d.kind) && a.kind == d.kind && a.text == d.text && a.fields == d.fields
    && a.confidence == d.confidence && a.ordinal == ordinal
  }

  ghost predicate Parity(drafts: seq<Draft>, facets: seq<string>, n: nat, out: seq<Annotation>)
    requires n <= |drafts|
  {
    var ordinals := Ordinals(drafts, facets, n);
    |out| == |ordinals| && forall k :: 0 <= k < |out| ==> Carries(out[k], drafts[ordinals[k]], ordinals[k])
  }

  ghost predicate Anchored(content: string, a: Annotation) {
    Quotes(content, a.anchor) && (Contains(content, a.text) ==> a.anchor.exact == a.text)
  }

  /** Exactly the legacy drafts of the requested kinds, in order, each anchored in the content. */
  method AnnotationExtract(rules: Rules, content: string, limit: nat, max: int, facets: seq<string>)
    returns (out: seq<Annotation>)
    ensures Parity(LegacyDrafts(rules, content, limit, max), facets, |LegacyDrafts(rules, content, limit, max)|, out)
    ensures forall k :: 0 <= k < |out| ==> Anchored(content, out[k])
  {
    if forall i :: 0 <= i < |facets| ==> KindOf(facets[i]).None? {
      NoneRequested(LegacyDrafts(rules, content, limit, max), facets, |LegacyDrafts(rules, content, limit, max)|);
      return [];
    }
    var drafts := LegacyExtract(rules, content, limit, max);
    var spans := LineSpans(content, limit);
    out := AnchorDrafts(rules, content, drafts, spans, facets);
  }

  method AnchorDrafts(rules: Rules, content: string, drafts: seq<Draft>, spans: seq<CleanSpan>, facets: seq<string>)
    returns (out: seq<Annotation>)
    requires drafts != [] ==> spans != []
    requires forall i :: 0 <= i < |spans| ==> Quotes(content, spans[i].raw)
    ensures Parity(drafts, facets, |drafts|, out)
    ensures forall k :: 0 <= k < |out| ==> Anchored(content, out[k])
  {
    out := [];
    for ordinal := 0 to |drafts|
      invariant Parity(drafts, facets, ordinal, out)
      invariant forall k :: 0 <= k < |out| ==> Anchored(content, out[k])
    {
      var d := drafts[ordinal];
      if Requested(facets, d.kind) {
        var anchor := Anchor(rules, content, d.text, spans);
        var a := Annotation(FacetOf(d.kind), d.kind, d.text, d.fields, d.confidence, anchor, ordinal);
        ParityAppend(drafts, facets, ordinal, out, a);
        out := out + [a];
      } else {
        ParitySkip(drafts, facets, ordinal, out);
      }
    }
  }

  lemma ParityAppend(drafts: seq<Draft>, facets: seq<string>, n: nat, out: seq<Annotation>, a: Annotation)
    requires n < |drafts| && Requested(facets, drafts[n].kind) && Parity(drafts, facets, n, out) &&
             Carries(a, drafts[n], n)
    ensures Parity(drafts, facets, n + 1, out + [a])
  {
    var ordinals := Ordinals(drafts, facets, n);
    assert Ordinals(drafts, facets, n + 1) == ordinals + [n];
  }

  lemma ParitySkip(drafts: seq<Draft>, facets: seq<string>, n: nat, out: seq<Annotation>)
    requires n < |drafts| && !Requested(facets, drafts[n].kind) && Parity(drafts, facets, n, out)
    ensures Parity(drafts, facets, n + 1, out)
  {
    assert Ordinals(drafts, facets, n + 1) == Ordinals(drafts, facets, n) + [];
  }

  lemma {:induction false} NoneRequested(drafts: seq<Draft>, facets: seq<string>, n: nat)
    requires n <= |drafts| && forall i :: 0 <= i < |facets| ==> KindOf(facets[i]).None?
    ensures Ordinals(drafts, facets, n) == []
  {
    if n == 0 {
    } else {
      NoneRequested(drafts, facets, n - 1);
    }
  }
}
