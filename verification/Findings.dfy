/** From a line that ripgrep flagged to attributed findings. */
module Findings {
  import opened Text
  import opened Regexes
  import opened Attribution

  /** The published snapshot of the loaded patterns. Without a combined expression (nothing
      compiles, or the union does not) attribution falls back to single patterns. */
  datatype PatternCache = PatternCache(patterns: seq<PatternInfo>, combined: Option<Regex>, groupToPattern: seq<int>)
  {
    ghost predicate Valid() {
      combined.Some? ==> combined == Union(patterns) && groupToPattern == Owners(patterns)
    }
  }

  method BuildCache(patterns: seq<PatternInfo>, unionCompiles: bool) returns (c: PatternCache)
    ensures c.Valid() && c.patterns == patterns
    ensures c.combined.Some? <==> unionCompiles && Union(patterns).Some?
  {
    var combined, groups := BuildCombinedRegex(patterns, unionCompiles);
    c := PatternCache(patterns, combined, groups);
  }

  // Which pattern owns a line

  /** The owner the patterns themselves name: the lowest-numbered pattern matching at the
      leftmost position, from `from` on, where any matches. */
  function LeftmostOwner(patterns: seq<PatternInfo>, s: string, from: nat): Option<nat>
    requires from <= |s|
    decreases |s| - from
  {
    if FirstAt(patterns, s, from).Some? then FirstAt(patterns, s, from)
    else if from == |s| then None
    else LeftmostOwner(patterns, s, from + 1)
  }

  /** The first pattern only ripgrep can run, the best guess for a line nothing else explains. */
  function FirstUncompiled(patterns: seq<PatternInfo>): (k: Option<nat>)
    ensures k.Some? ==> k.value < |patterns| && patterns[k.value].compiled.None?
    ensures forall j :: 0 <= j < |patterns| && (k.Some? ==> j < k.value) ==> patterns[j].compiled.Some?
  {
    if patterns == [] then None
    else
      var n := |patterns| - 1;
      var front := FirstUncompiled(patterns[..n]);
      if front.Some? then front else if patterns[n].compiled.None? then Some(n) else None
  }

  predicate MatchesLine(p: PatternInfo, s: string) {
    p.compiled.Some? && Find(p.compiled.value, s, 0).Some?
  }

  /** The submatch loop: the first group that took part and has an owner names the pattern. */
  method OwnerOf(c: PatternCache, loc: Loc, ghost s: string, ghost k: nat) returns (owner: int)
    requires c.Valid() && c.combined.Some?
    requires OwnedBy(c.patterns, s, loc.start, Match(loc.end, loc.caps), k)
    ensures owner == k
  {
    UnionGroups(c.patterns);
    var groups := 1 + NumSubexp(c.combined.value);
    for g := 1 to groups
      invariant forall h :: 1 <= h < g ==> h !in loc.caps
    {
      if g in loc.caps && g < |c.groupToPattern| {
        var pi := c.groupToPattern[g];
        if 0 <= pi < |c.patterns| {
          return pi;
        }
      }
    }
    assert false;
  }

  method FirstUncompiledIndex(patterns: seq<PatternInfo>) returns (k: Option<nat>)
    ensures k == FirstUncompiled(patterns)
  {
    for i := 0 to |patterns|
      invariant forall j :: 0 <= j < i ==> patterns[j].compiled.Some?
    {
      if patterns[i].compiled.None? {
        return Some(i);
      }
    }
    k := None;
  }

  /** FindMatchingPattern, against the search through the single patterns. */
  method FindMatchingPattern(c: PatternCache, content: string) returns (k: Option<nat>)
    requires c.Valid()
    ensures c.combined.Some? ==>
              var owner := LeftmostOwner(c.patterns, content, 0);
              k == if owner.Some? then owner else FirstUncompiled(c.patterns)
    ensures c.combined.None? ==>
              if exists j :: 0 <= j < |c.patterns| && MatchesLine(c.patterns[j], content)
              then k.Some? && k.value < |c.patterns| && MatchesLine(c.patterns[k.value], content)
                   && forall j :: 0 <= j < k.value ==> !MatchesLine(c.patterns[j], content)
              else k == FirstUncompiled(c.patterns)
  {
    hide Find, MatchAt, Matches;
    if c.combined.Some? {
      CombinedAgrees(c.patterns, content, 0);
      var loc := Find(c.combined.value, content, 0);
      if loc.Some? {
        LeftmostIs(c.patterns, content, 0, loc.value.start);
        ghost var owner := FirstAt(c.patterns, content, loc.value.start).value;
        var pi := OwnerOf(c, loc.value, content, owner);
        return Some(pi);
      }
      LeftmostNone(c.patterns, content, 0);
    } else {
      for i := 0 to |c.patterns|
        invariant forall j :: 0 <= j < i ==> !MatchesLine(c.patterns[j], content)
      {
        if MatchesLine(c.patterns[i], content) {
          return Some(i);
        }
      }
    }
    k := FirstUncompiledIndex(c.patterns);
  }

  lemma {:induction false} LeftmostIs(patterns: seq<PatternInfo>, s: string, from: nat, start: nat)
    requires from <= start <= |s| && FirstAt(patterns, s, start).Some?
    requires forall i :: from <= i < start ==> FirstAt(patterns, s, i).None?
    ensures LeftmostOwner(patterns, s, from) == FirstAt(patterns, s, start)
    decreases start - from
  {
    if from < start {
      assert FirstAt(patterns, s, from).None?;
      LeftmostIs(patterns, s, from + 1, start);
    }
  }

  lemma {:induction false} LeftmostNone(patterns: seq<PatternInfo>, s: string, from: nat)
    requires from <= |s| && forall i :: from <= i <= |s| ==> FirstAt(patterns, s, i).None?
    ensures LeftmostOwner(patterns, s, from).None?
    decreases |s| - from
  {
    assert FirstAt(patterns, s, from).None?;
    if from < |s| { LeftmostNone(patterns, s, from + 1); }
  }

  // Every match on a line

  /** FindAllStringSubmatchIndex: successive matches that do not overlap; an empty match
      right behind the previous match is not reported. */
  function FindAll(r: Regex, s: string, pos: nat, prevEnd: int): (locs: seq<Loc>)
    requires pos <= |s| + 1
    ensures forall k :: 0 <= k < |locs| ==> pos <= locs[k].start <= locs[k].end <= |s|
    ensures forall k :: 0 <= k < |locs| ==> MatchAt(r, s, locs[k].start) == Some(locs[k])
    ensures forall j, k :: 0 <= j < k < |locs| ==> locs[j].end <= locs[k].start && locs[j].start < locs[k].end
    decreases |s| + 1 - pos
  {
    if pos > |s| then []
    else
      var loc := Find(r, s, pos);
      if loc.None? then []
      else if loc.value.end == pos then
        var rest := FindAll(r, s, pos + 1, pos);
        if loc.value.start == prevEnd then rest else [loc.value] + rest
      else [loc.value] + FindAll(r, s, loc.value.end, loc.value.end)
  }

  /** Position `i` starts a reported span or lies strictly inside one. */
  ghost predicate StartsOrInside(locs: seq<Loc>, i: nat) {
    exists k :: 0 <= k < |locs| && (locs[k].start == i || locs[k].start < i < locs[k].end)
  }

  predicate EmptyAt(r: Regex, s: string, i: nat) {
    i <= |s| && MatchAt(r, s, i).Some? && MatchAt(r, s, i).value.end == i
  }

  ghost predicate EndsAt(locs: seq<Loc>, i: nat) {
    exists k :: 0 <= k < |locs| && locs[k].end == i
  }

  /** Position `i`, where `r` matches, is accounted for: only an empty match may be left out,
      and only right behind a reported span. */
  ghost predicate Reported(r: Regex, s: string, locs: seq<Loc>, i: nat) {
    StartsOrInside(locs, i) || (EmptyAt(r, s, i) && EndsAt(locs, i))
  }

  lemma ReportedBehind(r: Regex, s: string, front: seq<Loc>, locs: seq<Loc>, i: nat)
    requires Reported(r, s, locs, i)
    ensures Reported(r, s, front + locs, i)
  {
    hide EmptyAt;
    if StartsOrInside(locs, i) {
      var k :| 0 <= k < |locs| && (locs[k].start == i || locs[k].start < i < locs[k].end);
      assert (front + locs)[|front| + k] == locs[k];
    } else {
      var k :| 0 <= k < |locs| && locs[k].end == i;
      assert (front + locs)[|front| + k] == locs[k];
    }
  }

  lemma ReportedFirst(r: Regex, s: string, loc: Loc, rest: seq<Loc>, i: nat)
    requires loc.start == i || loc.start < i < loc.end || (EmptyAt(r, s, i) && loc.end == i)
    ensures Reported(r, s, [loc] + rest, i)
  {
    assert ([loc] + rest)[0] == loc;
  }

  /** No match is passed over: each position from `pos` on where the expression matches starts
      a reported span or lies strictly inside one, unless its match is empty and right behind
      a reported span or the match just before `pos`. */
  lemma {:induction false} FindAllCovers(r: Regex, s: string, pos: nat, prevEnd: int, i: nat)
    requires pos <= i <= |s| && MatchAt(r, s, i).Some?
    ensures Reported(r, s, FindAll(r, s, pos, prevEnd), i) || (i == pos == prevEnd && EmptyAt(r, s, i))
    decreases |s| + 1 - pos
  {
    hide Find, MatchAt, Reported;
    var loc := Find(r, s, pos).value;
    if loc.end == pos {
      var rest := FindAll(r, s, pos + 1, pos);
      if i > pos {
        FindAllCovers(r, s, pos + 1, pos, i);
        ReportedBehind(r, s, [loc], rest, i);
      } else if loc.start != prevEnd {
        ReportedFirst(r, s, loc, rest, i);
      }
    } else {
      var rest := FindAll(r, s, loc.end, loc.end);
      if i == loc.start || i < loc.end {
        ReportedFirst(r, s, loc, rest, i);
      } else {
        FindAllCovers(r, s, loc.end, loc.end, i);
        if Reported(r, s, rest, i) { ReportedBehind(r, s, [loc], rest, i); }
        else { ReportedFirst(r, s, loc, rest, i); }
      }
    }
  }

  /** Where some compiled pattern matches a line, the combined expression reports a span that
      starts there or has the position strictly inside, unless the preferred match there is
      empty and right behind a reported span. So two secrets packed side by side are both
      reported. */
  lemma NoMatchDropped(patterns: seq<PatternInfo>, s: string, i: nat, j: nat)
    requires Union(patterns).Some? && i <= |s| && j < |patterns| && MatchesHere(patterns[j], s, i)
    ensures var union := Union(patterns).value; var locs := FindAll(union, s, 0, -1); var k := FirstAt(patterns, s, i);
            && Reported(union, s, locs, i)
            && k.Some? && (MatchAt(patterns[k.value].compiled.value, s, i).value.end > i ==> StartsOrInside(locs, i))
  {
    assert FirstAt(patterns, s, i).Some?;
    UnionHead(patterns, s, i);
    var owner := patterns[FirstAt(patterns, s, i).value].compiled.value;
    assert EmptyAt(Union(patterns).value, s, i) <==> MatchAt(owner, s, i).value.end == i;
    FindAllCovers(Union(patterns).value, s, 0, -1, i);
    hide Matches, FindAll;
  }

  // The value of a finding

  function Index(s: string, c: char, from: nat): (i: int)
    requires from <= |s|
    ensures i == -1 || from <= i < |s|
    ensures i >= 0 ==> s[i] == c && forall j :: from <= j < i ==> s[j] != c
    ensures i == -1 ==> forall j :: from <= j < |s| ==> s[j] != c
    decreases |s| - from
  {
    if from == |s| then -1 else if s[from] == c then from else Index(s, c, from + 1)
  }

  function LastIndex(s: string, c: char): (i: int)
    ensures i == -1 || 0 <= i < |s|
    ensures i >= 0 ==> s[i] == c && forall j :: i < j < |s| ==> s[j] != c
    ensures i == -1 ==> forall j :: 0 <= j < |s| ==> s[j] != c
  {
    if s == "" then -1 else if s[|s| - 1] == c then |s| - 1 else LastIndex(s[..|s| - 1], c)
  }

  /** ExtractSecret: between the outermost tags, else between the first two quotes, else
      after the last colon, else everything. */
  function ExtractSecret(content: string): (v: string)
    ensures Piece(v, content)
  {
    var begin, end := Index(content, '>', 0) + 1, LastIndex(content, '<');
    if 0 < begin < end then
      var v := TrimSpace(content[begin..end]);
      PieceOfSlice(v, content, begin, end);
      v
    else
      var q1 := Index(content, '"', 0);
      var q2 := if q1 == -1 then -1 else Index(content, '"', q1 + 1);
      if q2 != -1 then content[q1 + 1..q2]
      else
        var colon := LastIndex(content, ':');
        if colon != -1 then
          var v := TrimSpace(content[colon + 1..]);
          PieceOfTail(v, content, colon + 1);
          v
        else assert content == content[0..|content|]; content
  }

  /** The first '>' is just before `a` and the last '<' at `b`, with something in between. */
  predicate Tagged(content: string, a: nat, b: nat) {
    && 0 < a < b < |content| && content[a - 1] == '>' && content[b] == '<'
    && (forall i :: 0 <= i < a - 1 ==> content[i] != '>') && (forall i :: b < i < |content| ==> content[i] != '<')
  }

  /** The first quote is just before `a` and the second one at `b`. */
  predicate Quoted(content: string, a: nat, b: nat) {
    && 0 < a <= b < |content| && content[a - 1] == '"' && content[b] == '"'
    && (forall i :: 0 <= i < b && i != a - 1 ==> content[i] != '"')
  }

  /** The last colon is just before `a`. */
  predicate Labelled(content: string, a: nat) {
    0 < a <= |content| && content[a - 1] == ':' && forall i :: a <= i < |content| ==> content[i] != ':'
  }

  ghost predicate HasTags(content: string) { exists a: nat, b: nat :: Tagged(content, a, b) }

  ghost predicate HasQuotes(content: string) { exists a: nat, b: nat :: Quoted(content, a, b) }

  ghost predicate HasLabel(content: string) { exists a: nat :: Labelled(content, a) }

  lemma TagsAre(content: string, a: nat, b: nat)
    ensures Tagged(content, a, b) <==> 0 < a < b && a == Index(content, '>', 0) + 1 && b == LastIndex(content, '<')
  {}

  lemma QuotesAre(content: string, a: nat, b: nat)
    ensures Quoted(content, a, b) <==>
            0 < a && a - 1 == Index(content, '"', 0) && a <= |content| && b == Index(content, '"', a)
  {}

  lemma LabelIs(content: string, a: nat)
    ensures Labelled(content, a) <==> 0 < a && a - 1 == LastIndex(content, ':')
  {}

  lemma TagsIff(content: string)
    ensures HasTags(content) <==> 0 <= Index(content, '>', 0) && Index(content, '>', 0) + 1 < LastIndex(content, '<')
  {
    hide Tagged;
    var a, b := Index(content, '>', 0) + 1, LastIndex(content, '<');
    if 0 < a < b { TagsAre(content, a, b); }
    forall c: nat, d: nat | Tagged(content, c, d) ensures 0 < a < b { TagsAre(content, c, d); }
  }

  lemma QuotesIff(content: string)
    ensures HasQuotes(content) <==>
            Index(content, '"', 0) != -1 && Index(content, '"', Index(content, '"', 0) + 1) != -1
  {
    hide Quoted;
    var a := Index(content, '"', 0) + 1;
    if a > 0 && Index(content, '"', a) != -1 { QuotesAre(content, a, Index(content, '"', a)); }
    forall c: nat, d: nat | Quoted(content, c, d) ensures a > 0 && Index(content, '"', a) != -1 {
      QuotesAre(content, c, d);
    }
  }

  lemma LabelIff(content: string)
    ensures HasLabel(content) <==> LastIndex(content, ':') != -1
  {
    hide Labelled;
    var a := LastIndex(content, ':') + 1;
    if a > 0 { LabelIs(content, a); }
    forall c: nat | Labelled(content, c) ensures a > 0 { LabelIs(content, c); }
  }

  /** What is extracted, by what the content looks like: tags go before quotes and quotes
      before a colon, and only tags and a colon have their white space trimmed. */
  lemma ExtractedIs(content: string, a: nat, b: nat)
    ensures Tagged(content, a, b) ==> Trims(ExtractSecret(content), content[a..b])
    ensures !HasTags(content) && Quoted(content, a, b) ==> ExtractSecret(content) == content[a..b]
    ensures !HasTags(content) && !HasQuotes(content) && Labelled(content, a) ==>
              Trims(ExtractSecret(content), content[a..])
    ensures !HasTags(content) && !HasQuotes(content) && !HasLabel(content) ==> ExtractSecret(content) == content
  {
    hide Tagged, Quoted, Labelled, HasTags, HasQuotes, HasLabel, Index, LastIndex, TrimSpace, Trims, Piece;
    TagsAre(content, a, b);
    QuotesAre(content, a, b);
    LabelIs(content, a);
    TagsIff(content);
    QuotesIff(content);
    LabelIff(content);
    if Tagged(content, a, b) {
      Trimmed(content[a..b]);
    } else if Labelled(content, a) {
      Trimmed(content[a..]);
    }
  }

  datatype Finding = Finding(secretType: string, confidence: string, masvs: string, file: string, lineNo: int,
                             value: string)

  /** The finding carries the name, confidence and MASVS ID of its pattern, if it has one. */
  predicate Describes(f: Finding, patterns: seq<PatternInfo>, owner: int) {
    if 0 <= owner < |patterns| then
      var p := patterns[owner];
      f.secretType == p.name && f.confidence == p.confidence && f.masvs == p.masvs
    else f.secretType == "unattributed" && f.confidence == "low" && f.masvs == ""
  }

  /** The closure `add`: attribute a span to a pattern and take its value. */
  function MakeFinding(patterns: seq<PatternInfo>, owner: int, file: string, lineNo: int, span: string): (f: Finding)
    ensures Describes(f, patterns, owner) && f.file == file && f.lineNo == lineNo
    ensures f.value == if Blank(ExtractSecret(span)) then span else ExtractSecret(span)
    ensures Piece(f.value, span)
    ensures !Blank(span) ==> !Blank(f.value)
  {
    var extracted := ExtractSecret(span);
    assert span == span[0..|span|];
    var value := if TrimSpace(extracted) == "" then span else extracted;
    if 0 <= owner < |patterns| then
      Finding(patterns[owner].name, patterns[owner].confidence, patterns[owner].masvs, file, lineNo, value)
    else Finding("unattributed", "low", "", file, lineNo, value)
  }

  /** A span to report: the pattern it belongs to, and where it is. */
  type Span = (nat, Loc)

  predicate InLine(spans: seq<Span>, s: string) {
    forall k :: 0 <= k < |spans| ==> spans[k].1.start <= spans[k].1.end <= |s|
  }

  function TextOf(span: Span, s: string): string
    requires span.1.start <= span.1.end <= |s|
  {
    s[span.1.start..span.1.end]
  }

  /** The finding of a span: attributed to its pattern, its value a contiguous piece of the
      line and non-blank whenever the span is. */
  ghost predicate MadeFrom(patterns: seq<PatternInfo>, file: string, lineNo: int, s: string, span: Span, f: Finding) {
    && span.1.start <= span.1.end <= |s|
    && Describes(f, patterns, span.0) && f.file == file && f.lineNo == lineNo
    && f.value == (if Blank(ExtractSecret(TextOf(span, s))) then TextOf(span, s) else ExtractSecret(TextOf(span, s)))
    && Piece(f.value, s) && (!Blank(TextOf(span, s)) ==> !Blank(f.value))
  }

  /** One finding per span, in order. */
  ghost predicate Made(patterns: seq<PatternInfo>, file: string, lineNo: int, s: string, spans: seq<Span>,
                       out: seq<Finding>) {
    |out| == |spans| && forall k :: 0 <= k < |spans| ==> MadeFrom(patterns, file, lineNo, s, spans[k], out[k])
  }

  lemma SpanMakes(patterns: seq<PatternInfo>, file: string, lineNo: int, s: string, span: Span)
    requires span.1.start <= span.1.end <= |s|
    ensures MadeFrom(patterns, file, lineNo, s, span, MakeFinding(patterns, span.0, file, lineNo, TextOf(span, s)))
  {
    PieceOfSlice(MakeFinding(patterns, span.0, file, lineNo, TextOf(span, s)).value, s, span.1.start, span.1.end);
  }

  lemma MadeOne(patterns: seq<PatternInfo>, file: string, lineNo: int, s: string, spans: seq<Span>, out: seq<Finding>,
                span: Span)
    requires Made(patterns, file, lineNo, s, spans, out) && span.1.start <= span.1.end <= |s|
    ensures Made(patterns, file, lineNo, s, spans + [span],
                 out + [MakeFinding(patterns, span.0, file, lineNo, TextOf(span, s))])
  {
    hide MadeFrom, MakeFinding, TextOf;
    SpanMakes(patterns, file, lineNo, s, span);
  }

  // The spans of a line

  /** Each match of the combined expression, with the lowest-numbered pattern matching there. */
  ghost predicate CombinedSpans(c: PatternCache, s: string, spans: seq<Span>)
    requires c.combined.Some?
  {
    var locs := FindAll(c.combined.value, s, 0, -1);
    |spans| == |locs| && forall k :: 0 <= k < |locs| ==>
      spans[k].1 == locs[k] && FirstAt(c.patterns, s, locs[k].start) == Some(spans[k].0)
  }

  function Owned(owner: nat, locs: seq<Loc>): seq<Span> { seq(|locs|, k requires 0 <= k < |locs| => (owner, locs[k])) }

  /** The matches of the first `n` patterns one by one, as without a combined expression. */
  function SingleSpans(patterns: seq<PatternInfo>, n: nat, s: string): (spans: seq<Span>)
    requires n <= |patterns|
    ensures InLine(spans, s)
  {
    if n == 0 then []
    else if patterns[n - 1].compiled.None? then SingleSpans(patterns, n - 1, s)
    else SingleSpans(patterns, n - 1, s) + Owned(n - 1, FindAll(patterns[n - 1].compiled.value, s, 0, -1))
  }

  /** They are exactly the matches of each compiled pattern, pattern by pattern. */
  lemma {:induction false} SingleSpansAre(patterns: seq<PatternInfo>, n: nat, s: string, i: nat, loc: Loc)
    requires n <= |patterns|
    ensures (i, loc) in SingleSpans(patterns, n, s) <==>
            i < n && patterns[i].compiled.Some? && loc in FindAll(patterns[i].compiled.value, s, 0, -1)
    ensures forall j, k :: 0 <= j < k < |SingleSpans(patterns, n, s)| ==>
              SingleSpans(patterns, n, s)[j].0 <= SingleSpans(patterns, n, s)[k].0 < n
  {
    hide FindAll;
    if n > 0 {
      SingleSpansAre(patterns, n - 1, s, i, loc);
      if patterns[n - 1].compiled.Some? {
        OwnedHas(n - 1, FindAll(patterns[n - 1].compiled.value, s, 0, -1), i, loc);
        SingleOwners(patterns, n - 1, s);
      }
    }
  }

  lemma {:induction false} SingleOwners(patterns: seq<PatternInfo>, n: nat, s: string)
    requires n <= |patterns|
    ensures forall k :: 0 <= k < |SingleSpans(patterns, n, s)| ==> SingleSpans(patterns, n, s)[k].0 < n
  {
    hide FindAll;
    if n > 0 { SingleOwners(patterns, n - 1, s); }
  }

  lemma OwnedHas(owner: nat, locs: seq<Loc>, i: nat, loc: Loc)
    ensures (i, loc) in Owned(owner, locs) <==> i == owner && loc in locs
  {
    if loc in locs {
      var k :| 0 <= k < |locs| && locs[k] == loc;
      assert Owned(owner, locs)[k] == (owner, loc);
    }
  }

  /** FindingsForLine: never empty; one finding per span of the line, the matches of the
      combined expression or, without one, of the single patterns; with no span, one best
      effort over the whole line. */
  method FindingsForLine(c: PatternCache, file: string, lineNo: int, content: string) returns (out: seq<Finding>)
    requires c.Valid()
    ensures out != [] && forall k :: 0 <= k < |out| ==> Piece(out[k].value, content)
    ensures c.combined.Some? && FindAll(c.combined.value, content, 0, -1) != [] ==>
              exists spans :: CombinedSpans(c, content, spans) && Made(c.patterns, file, lineNo, content, spans, out)
    ensures c.combined.None? && SingleSpans(c.patterns, |c.patterns|, content) != [] ==>
              Made(c.patterns, file, lineNo, content, SingleSpans(c.patterns, |c.patterns|, content), out)
    ensures (if c.combined.Some? then FindAll(c.combined.value, content, 0, -1) == []
             else SingleSpans(c.patterns, |c.patterns|, content) == []) ==>
              var guess := FirstUncompiled(c.patterns);
              && |out| == 1 && Describes(out[0], c.patterns, if guess.Some? then guess.value else -1)
              && out[0].file == file && out[0].lineNo == lineNo
              && out[0].value == if Blank(ExtractSecret(content)) then content else ExtractSecret(content)
  {
    hide Find, MatchAt, Matches, MakeFinding, FindAll, SingleSpans, Piece, Blank, FirstAt;
    if c.combined.Some? {
      out := CombinedFindings(c, file, lineNo, content);
    } else {
      out := FallbackFindings(c.patterns, file, lineNo, content);
    }
    if |out| > 0 {
      return;
    }
    var guess := FirstUncompiledIndex(c.patterns);
    var owner := if guess.Some? then guess.value else -1;
    assert content[0..|content|] == content;
    out := [MakeFinding(c.patterns, owner, file, lineNo, content)];
  }

  method CombinedFindings(c: PatternCache, file: string, lineNo: int, content: string) returns (out: seq<Finding>)
    requires c.Valid() && c.combined.Some?
    ensures exists spans :: CombinedSpans(c, content, spans) && Made(c.patterns, file, lineNo, content, spans, out)
  {
    hide Find, MatchAt, Matches, MakeFinding, FindAll, Made, FirstAt;
    hide Describes, ExtractSecret, Piece, Blank, TrimSpace, OwnedBy;
    var locs := FindAll(c.combined.value, content, 0, -1);
    ghost var spans: seq<Span> := [];
    out := [];
    NothingMade(c.patterns, file, lineNo, content);
    for i := 0 to |locs|
      invariant Made(c.patterns, file, lineNo, content, spans, out) && |spans| == i
      invariant forall k :: 0 <= k < i ==>
                  spans[k].1 == locs[k] && FirstAt(c.patterns, content, locs[k].start) == Some(spans[k].0)
    {
      ghost var owner := OwnsMatch(c.patterns, content, locs[i]);
      var pi := OwnerOf(c, locs[i], content, owner);
      MadeOne(c.patterns, file, lineNo, content, spans, out, (owner, locs[i]));
      spans := spans + [(owner, locs[i])];
      out := out + [MakeFinding(c.patterns, pi, file, lineNo, content[locs[i].start..locs[i].end])];
    }
    assert CombinedSpans(c, content, spans);
  }

  lemma NothingMade(patterns: seq<PatternInfo>, file: string, lineNo: int, s: string)
    ensures Made(patterns, file, lineNo, s, [], [])
  {}

  method FallbackFindings(patterns: seq<PatternInfo>, file: string, lineNo: int, content: string)
    returns (out: seq<Finding>)
    ensures Made(patterns, file, lineNo, content, SingleSpans(patterns, |patterns|, content), out)
  {
    hide Find, MatchAt, Matches, MakeFinding, FindAll, Made;
    hide Describes, ExtractSecret, Piece, Blank, TrimSpace;
    out := [];
    NothingMade(patterns, file, lineNo, content);
    for i := 0 to |patterns|
      invariant Made(patterns, file, lineNo, content, SingleSpans(patterns, i, content), out)
    {
      if patterns[i].compiled.Some? {
        var locs := FindAll(patterns[i].compiled.value, content, 0, -1);
        ghost var before := SingleSpans(patterns, i, content);
        assert before + Owned(i, locs[..0]) == before;
        for j := 0 to |locs|
          invariant Made(patterns, file, lineNo, content, before + Owned(i, locs[..j]), out)
        {
          MadeOne(patterns, file, lineNo, content, before + Owned(i, locs[..j]), out, (i, locs[j]));
          assert before + Owned(i, locs[..j + 1]) == before + Owned(i, locs[..j]) + [(i, locs[j])];
          out := out + [MakeFinding(patterns, i, file, lineNo, content[locs[j].start..locs[j].end])];
        }
        assert locs[..|locs|] == locs;
      }
    }
  }

  /** Any match of the union belongs to the lowest-numbered pattern matching at its start. */
  lemma OwnsMatch(patterns: seq<PatternInfo>, s: string, loc: Loc) returns (k: nat)
    requires Union(patterns).Some? && loc.start <= |s| && MatchAt(Union(patterns).value, s, loc.start) == Some(loc)
    ensures FirstAt(patterns, s, loc.start) == Some(k)
    ensures OwnedBy(patterns, s, loc.start, Match(loc.end, loc.caps), k)
  {
    UnionHead(patterns, s, loc.start);
    k := FirstAt(patterns, s, loc.start).value;
  }
}
