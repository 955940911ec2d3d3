/** What an expression means, without saying how to search: which stretches of a text it
    accepts. The matcher finds exactly those, and its order prefers as Go's does. */
module RegexMeaning {
  import opened Text
  import opened Regexes
  import opened Attribution

  predicate WordChar(c: char) { 'a' <= c <= 'z' || 'A' <= c <= 'Z' || '0' <= c <= '9' || c == '_' }

  predicate EndsInWord(t: string) { t != "" && WordChar(t[|t| - 1]) }

  predicate StartsWithWord(t: string) { t != "" && WordChar(t[0]) }

  /** A place in a text, seen as what is before it and what is after it. */
  predicate HoldsBetween(look: Look, before: string, after: string) {
    match look
    case BeginText => before == ""
    case EndText => after == ""
    case BeginLine => before == "" || before[|before| - 1] == '\n'
    case EndLine => after == "" || after[0] == '\n'
    case WordBoundary => EndsInWord(before) != StartsWithWord(after)
    case NoWordBoundary => EndsInWord(before) == StartsWithWord(after)
  }

  function AtMost(min: nat, max: Option<nat>, n: nat): bool {
    max.Some? ==> n <= min || n <= max.value
  }

  /** `r` accepts the stretch of `s` from `i` to `j`. */
  ghost predicate Accepts(r: Regex, s: string, i: nat, j: nat)
    requires i <= j <= |s|
    decreases r, 1, 0
  {
    match r
    case Empty => i == j
    case Class(chars, negated) => j == i + 1 && (s[i] in chars) != negated
    case Assert(look) => i == j && HoldsBetween(look, s[..i], s[i..])
    case Cat(x, y) => Splits(x, y, s, i, j)
    case Alt(x, y) => Accepts(x, s, i, j) || Accepts(y, s, i, j)
    case Group(x) => Accepts(x, s, i, j)
    case Repeat(x, min, max, _) => exists n: nat :: min <= n && AtMost(min, max, n) && Times(x, s, i, j, n)
  }

  /** A stretch accepted by `x`, then one accepted by `y`. */
  ghost predicate Splits(x: Regex, y: Regex, s: string, i: nat, j: nat)
    requires i <= j <= |s|
    decreases Cat(x, y), 0, 0
  {
    exists k: nat :: i <= k <= j && Accepts(x, s, i, k) && Accepts(y, s, k, j)
  }

  /** `n` stretches accepted by `x`, one after the other, from `i` to `j`. */
  ghost predicate Times(x: Regex, s: string, i: nat, j: nat, n: nat)
    requires i <= j <= |s|
    decreases x, 2, n
  {
    if n == 0 then i == j
    else exists k: nat :: i <= k <= j && Accepts(x, s, i, k) && Times(x, s, k, j, n - 1)
  }

  /** The same with no stretch empty. */
  ghost predicate FullTimes(x: Regex, s: string, i: nat, j: nat, n: nat)
    requires i <= j <= |s|
    decreases n
  {
    if n == 0 then i == j
    else exists k: nat :: i < k <= j && Accepts(x, s, i, k) && FullTimes(x, s, k, j, n - 1)
  }

  lemma {:induction false} FullIsTimes(x: Regex, s: string, i: nat, j: nat, n: nat)
    requires i <= j <= |s| && FullTimes(x, s, i, j, n)
    ensures Times(x, s, i, j, n)
    decreases n
  {
    hide Accepts;
    if n > 0 {
      var k: nat :| i < k <= j && Accepts(x, s, i, k) && FullTimes(x, s, k, j, n - 1);
      FullIsTimes(x, s, k, j, n - 1);
    }
  }

  /** Either no stretch is empty, or one can be left out. */
  lemma {:induction false} DropEmpty(x: Regex, s: string, i: nat, j: nat, n: nat)
    requires i <= j <= |s| && Times(x, s, i, j, n)
    ensures FullTimes(x, s, i, j, n) || (n > 0 && Times(x, s, i, j, n - 1))
    decreases n
  {
    hide Accepts;
    if n > 0 {
      var k: nat :| i <= k <= j && Accepts(x, s, i, k) && Times(x, s, k, j, n - 1);
      if k > i { DropEmpty(x, s, k, j, n - 1); }
    }
  }

  /** `n` stretches of which only a required one may be empty. */
  ghost predicate Lean(x: Regex, s: string, i: nat, j: nat, min: nat, n: nat)
    requires i <= j <= |s|
  {
    (n == min && Times(x, s, i, j, n)) || (n > min && FullTimes(x, s, i, j, n))
  }

  lemma {:induction false} MakeLean(x: Regex, s: string, i: nat, j: nat, min: nat, n: nat) returns (n': nat)
    requires i <= j <= |s| && min <= n && Times(x, s, i, j, n)
    ensures min <= n' <= n && Lean(x, s, i, j, min, n')
    decreases n
  {
    hide Accepts, Times, FullTimes;
    n' := n;
    if n > min {
      DropEmpty(x, s, i, j, n);
      if !FullTimes(x, s, i, j, n) { n' := MakeLean(x, s, i, j, min, n - 1); }
    }
  }

  // The ends a list of matches reaches

  ghost predicate Reaches(ms: seq<Match>, j: nat) { exists k :: 0 <= k < |ms| && ms[k].pos == j }

  lemma ReachesConcat(a: seq<Match>, b: seq<Match>, j: nat)
    ensures Reaches(a + b, j) <==> Reaches(a, j) || Reaches(b, j)
  {
    if Reaches(a, j) {
      var k :| 0 <= k < |a| && a[k].pos == j;
      assert (a + b)[k].pos == j;
    }
    if Reaches(b, j) {
      var k :| 0 <= k < |b| && b[k].pos == j;
      assert (a + b)[|a| + k].pos == j;
    }
    if Reaches(a + b, j) {
      var k :| 0 <= k < |a + b| && (a + b)[k].pos == j;
      if k < |a| { assert a[k].pos == j; } else { assert b[k - |a|].pos == j; }
    }
  }

  lemma ReachesOne(m: Match, j: nat)
    ensures Reaches([m], j) <==> m.pos == j
  {
    assert [m][0] == m;
  }

  lemma ReachesClosed(b: nat, start: nat, ms: seq<Match>, s: string, j: nat)
    requires AllWithin(ms, start, s)
    ensures Reaches(CloseGroup(b, start, ms, s), j) <==> Reaches(ms, j)
  {
    var out := CloseGroup(b, start, ms, s);
    if Reaches(ms, j) {
      var k :| 0 <= k < |ms| && ms[k].pos == j;
      assert out[k].pos == j;
    }
    if Reaches(out, j) {
      var k :| 0 <= k < |out| && out[k].pos == j;
      assert ms[k].pos == j;
    }
  }

  lemma {:induction false} AdvancingHas(ms: seq<Match>, from: nat, s: string, k: nat)
    requires AllWithin(ms, from, s) && k < |ms| && ms[k].pos > from
    ensures ms[k] in Advancing(ms, from, s)
  {
    if k > 0 { AdvancingHas(ms[1..], from, s, k - 1); }
  }

  /** From one of `ms`, `r` reaches `j`. */
  ghost predicate ReachesVia(r: Regex, b: nat, s: string, ms: seq<Match>, j: nat)
    requires AllWithin(ms, 0, s)
  {
    exists k :: 0 <= k < |ms| && Reaches(Matches(r, b, s, ms[k]), j)
  }

  lemma {:induction false} ReachesAll(r: Regex, b: nat, s: string, lo: nat, ms: seq<Match>, j: nat)
    requires AllWithin(ms, lo, s)
    ensures Reaches(MatchesAll(r, b, s, lo, ms), j) <==> ReachesVia(r, b, s, ms, j)
    decreases |ms|
  {
    hide Matches, Reaches;
    if ms == [] {
      NothingReached(j);
    } else {
      var rest := ms[1..];
      ReachesAll(r, b, s, lo, rest, j);
      ReachesConcat(Matches(r, b, s, ms[0]), MatchesAll(r, b, s, lo, rest), j);
      if ReachesVia(r, b, s, ms, j) {
        var k :| 0 <= k < |ms| && Reaches(Matches(r, b, s, ms[k]), j);
        if k > 0 { assert rest[k - 1] == ms[k]; }
      }
      if ReachesVia(r, b, s, rest, j) {
        var k :| 0 <= k < |rest| && Reaches(Matches(r, b, s, rest[k]), j);
        assert ms[k + 1] == rest[k];
      }
    }
  }

  lemma NothingReached(j: nat)
    ensures !Reaches([], j)
  {}

  lemma HoldsSame(look: Look, s: string, i: nat)
    requires i <= |s|
    ensures Holds(look, s, i) <==> HoldsBetween(look, s[..i], s[i..])
  {}

  // The matcher finds what the expression accepts

  /** The matcher's ends are exactly the ends of accepted stretches, however the groups are
      numbered and whatever was captured before. */
  lemma {:induction false} MatchesAre(r: Regex, b: nat, s: string, m: Match, j: nat)
    requires m.pos <= j <= |s|
    ensures Reaches(Matches(r, b, s, m), j) <==> Accepts(r, s, m.pos, j)
    decreases r, 0, 1
  {
    match r
    case Empty => ReachesOne(m, j);
    case Class(_, _) => if m.pos < |s| { ReachesOne(m.(pos := m.pos + 1), j); } NothingReached(j);
    case Assert(look) =>
      HoldsSame(look, s, m.pos);
      ReachesOne(m, j);
      NothingReached(j);
    case Cat(x, y) => CatAre(x, y, b, s, m, j);
    case Alt(x, y) =>
      hide Reaches;
      MatchesAre(x, b, s, m, j);
      MatchesAre(y, b + NumSubexp(x), s, m, j);
      ReachesConcat(Matches(x, b, s, m), Matches(y, b + NumSubexp(x), s, m), j);
    case Group(x) =>
      hide Reaches;
      MatchesAre(x, b + 1, s, m, j);
      ReachesClosed(b, m.pos, Matches(x, b + 1, s, m), s, j);
    case Repeat(x, min, max, greedy) =>
      hide Reaches, Times;
      if Reaches(Matches(r, b, s, m), j) {
        var n := LoopSound(x, b, s, min, max, greedy, None, m, j);
      }
      if Accepts(r, s, m.pos, j) {
        var n: nat :| min <= n && AtMost(min, max, n) && Times(x, s, m.pos, j, n);
        if max.Some? {
          BoundedFinds(x, b, s, min, max, greedy, None, m, j, n);
        } else {
          var n' := MakeLean(x, s, m.pos, j, min, n);
          UnboundedFinds(x, b, s, min, greedy, None, m, j, n');
        }
      }
  }

  lemma {:induction false} CatAre(x: Regex, y: Regex, b: nat, s: string, m: Match, j: nat)
    requires m.pos <= j <= |s|
    ensures Reaches(Matches(Cat(x, y), b, s, m), j) <==> Splits(x, y, s, m.pos, j)
    decreases Cat(x, y), 0, 0
  {
    var first, c := Matches(x, b, s, m), b + NumSubexp(x);
    assert Matches(Cat(x, y), b, s, m) == MatchesAll(y, c, s, m.pos, first);
    hide Matches, MatchesAll, Accepts, Splits, Reaches, ReachesVia;
    ReachesAll(y, c, s, m.pos, first, j);
    if ReachesVia(y, c, s, first, j) {
      var k := ViaAt(y, c, s, first, j);
      MatchesAre(y, c, s, first[k], j);
      MatchesAre(x, b, s, m, first[k].pos);
      SplitsAt(x, y, s, m.pos, first[k].pos, j);
    }
    if Splits(x, y, s, m.pos, j) {
      var mid := SplitAt(x, y, s, m.pos, j);
      MatchesAre(x, b, s, m, mid);
      var k := ReachedAt(first, mid);
      MatchesAre(y, c, s, first[k], j);
      assert ReachesVia(y, c, s, first, j) by { ViaFrom(y, c, s, first, j, k); }
    }
  }

  lemma ViaAt(r: Regex, b: nat, s: string, ms: seq<Match>, j: nat) returns (k: nat)
    requires AllWithin(ms, 0, s) && ReachesVia(r, b, s, ms, j)
    ensures k < |ms| && Reaches(Matches(r, b, s, ms[k]), j) && ms[k].pos <= j && Reaches(ms, ms[k].pos)
  {
    hide Matches;
    k :| 0 <= k < |ms| && Reaches(Matches(r, b, s, ms[k]), j);
    ReachedIsLater(r, b, s, ms[k], j);
  }

  lemma ViaFrom(r: Regex, b: nat, s: string, ms: seq<Match>, j: nat, k: nat)
    requires AllWithin(ms, 0, s) && k < |ms| && Reaches(Matches(r, b, s, ms[k]), j)
    ensures ReachesVia(r, b, s, ms, j)
  {
    hide Matches, Reaches;
  }

  lemma ReachedAt(ms: seq<Match>, j: nat) returns (k: nat)
    requires Reaches(ms, j)
    ensures k < |ms| && ms[k].pos == j
  {
    k :| 0 <= k < |ms| && ms[k].pos == j;
  }

  lemma SplitsAt(x: Regex, y: Regex, s: string, i: nat, k: nat, j: nat)
    requires i <= k <= j <= |s| && Accepts(x, s, i, k) && Accepts(y, s, k, j)
    ensures Splits(x, y, s, i, j)
  {
    hide Accepts;
  }

  lemma SplitAt(x: Regex, y: Regex, s: string, i: nat, j: nat) returns (k: nat)
    requires i <= j <= |s| && Splits(x, y, s, i, j)
    ensures i <= k <= j && Accepts(x, s, i, k) && Accepts(y, s, k, j)
  {
    k :| i <= k <= j && Accepts(x, s, i, k) && Accepts(y, s, k, j);
  }

  lemma ReachedIsLater(r: Regex, b: nat, s: string, m: Match, j: nat)
    requires m.pos <= |s| && Reaches(Matches(r, b, s, m), j)
    ensures m.pos <= j <= |s|
  {
    hide Matches;
  }

  // Loops

  ghost predicate LoopsVia(x: Regex, b: nat, s: string, min: nat, max: Option<nat>, greedy: bool, prev: nat,
                           ms: seq<Match>, j: nat)
    requires AllWithin(ms, 0, s)
  {
    exists k :: 0 <= k < |ms| && Reaches(Loop(x, b, s, min, max, greedy, Some(prev), ms[k]), j)
  }

  lemma {:induction false} LoopReachesAll(x: Regex, b: nat, s: string, min: nat, max: Option<nat>, greedy: bool,
                                          prev: nat,
                                          lo: nat, ms: seq<Match>, j: nat)
    requires AllWithin(ms, lo, s) && lo <= |s|
    ensures Reaches(LoopAll(x, b, s, min, max, greedy, prev, lo, ms), j)
            <==> LoopsVia(x, b, s, min, max, greedy, prev, ms, j)
    decreases |ms|
  {
    hide Loop, Reaches;
    if ms == [] {
      NothingReached(j);
    } else {
      var rest := ms[1..];
      LoopReachesAll(x, b, s, min, max, greedy, prev, lo, rest, j);
      var here := Loop(x, b, s, min, max, greedy, Some(prev), ms[0]);
      ReachesConcat(here, LoopAll(x, b, s, min, max, greedy, prev, lo, rest), j);
      if LoopsVia(x, b, s, min, max, greedy, prev, ms, j) {
        var k :| 0 <= k < |ms| && Reaches(Loop(x, b, s, min, max, greedy, Some(prev), ms[k]), j);
        if k > 0 { assert rest[k - 1] == ms[k]; }
      }
      if LoopsVia(x, b, s, min, max, greedy, prev, rest, j) {
        var k :| 0 <= k < |rest| && Reaches(Loop(x, b, s, min, max, greedy, Some(prev), rest[k]), j);
        assert ms[k + 1] == rest[k];
      }
    }
  }

  /** One round of a loop: where it goes on, and from which matches. */
  function Rounds(x: Regex, b: nat, s: string, min: nat, max: Option<nat>, prev: Option<nat>, m: Match):
    (ms: seq<Match>)
    requires m.pos <= |s|
    ensures AllWithin(ms, m.pos, s)
  {
    var once := Matches(x, b, s, m);
    if min > 0 then once
    else if max == Some(0) || (max.None? && prev == Some(m.pos)) then []
    else if max.Some? || prev.None? then once
    else if m.pos == |s| then []
    else Advancing(once, m.pos, s)
  }

  /** The loop reaches `j` by stopping here, when it may, or by going on from one round. */
  lemma LoopUnfolds(x: Regex, b: nat, s: string, min: nat, max: Option<nat>, greedy: bool,
                    prev: Option<nat>, m: Match, j: nat)
    requires m.pos <= |s|
    ensures Reaches(Loop(x, b, s, min, max, greedy, prev, m), j) <==>
            || (min == 0 && j == m.pos)
            || LoopsVia(x, b, s, if min > 0 then min - 1 else 0, Less(max), greedy, m.pos,
                        Rounds(x, b, s, min, max, prev, m), j)
  {
    hide Matches, LoopAll, Reaches, Advancing;
    var rounds := Rounds(x, b, s, min, max, prev, m);
    var next := if min > 0 then min - 1 else 0;
    NothingReached(j);
    ReachesOne(m, j);
    if min > 0 {
      LoopReachesAll(x, b, s, next, Less(max), greedy, m.pos, m.pos, rounds, j);
    } else if max == Some(0) || (max.None? && prev == Some(m.pos)) {
    } else if max.Some? || prev.None? {
      var more := LoopAll(x, b, s, 0, Less(max), greedy, m.pos, m.pos, rounds);
      LoopReachesAll(x, b, s, 0, Less(max), greedy, m.pos, m.pos, rounds, j);
      ReachesConcat(more, [m], j);
      ReachesConcat([m], more, j);
    } else if m.pos == |s| {
      ReachesConcat([], [m], j);
      ReachesConcat([m], [], j);
    } else {
      var more := LoopAll(x, b, s, 0, None, greedy, m.pos, m.pos + 1, rounds);
      LoopReachesAll(x, b, s, 0, None, greedy, m.pos, m.pos + 1, rounds, j);
      ReachesConcat(more, [m], j);
      ReachesConcat([m], more, j);
    }
  }

  /** Each round is a stretch that the body accepts. */
  lemma RoundAccepted(x: Regex, b: nat, s: string, min: nat, max: Option<nat>, prev: Option<nat>, m: Match, k: nat)
    requires m.pos <= |s| && k < |Rounds(x, b, s, min, max, prev, m)|
    requires var p := Rounds(x, b, s, min, max, prev, m)[k].pos;
             Reaches(Matches(x, b, s, m), p) <==> Accepts(x, s, m.pos, p)
    ensures Accepts(x, s, m.pos, Rounds(x, b, s, min, max, prev, m)[k].pos)
  {
    hide Matches, Accepts;
    var r := Rounds(x, b, s, min, max, prev, m)[k];
    assert r in Matches(x, b, s, m);
  }

  lemma {:induction false} LoopSound(x: Regex, b: nat, s: string, min: nat, max: Option<nat>, greedy: bool,
                                     prev: Option<nat>, m: Match, j: nat) returns (n: nat)
    requires m.pos <= j <= |s| && Reaches(Loop(x, b, s, min, max, greedy, prev, m), j)
    ensures min <= n && AtMost(min, max, n) && Times(x, s, m.pos, j, n)
    decreases x, 1, min, Rank(max), |s| - m.pos, Stage(prev)
  {
    hide Loop, Matches, Reaches, Accepts;
    LoopUnfolds(x, b, s, min, max, greedy, prev, m, j);
    if min == 0 && j == m.pos {
      n := 0;
    } else {
      var rounds, next := Rounds(x, b, s, min, max, prev, m), if min > 0 then min - 1 else 0;
      var k :| 0 <= k < |rounds| && Reaches(Loop(x, b, s, next, Less(max), greedy, Some(m.pos), rounds[k]), j);
      LoopLater(x, b, s, next, Less(max), greedy, Some(m.pos), rounds[k], j);
      RoundsGoOn(x, b, s, min, max, prev, m, k);
      MatchesAre(x, b, s, m, rounds[k].pos);
      RoundAccepted(x, b, s, min, max, prev, m, k);
      var rest := LoopSound(x, b, s, next, Less(max), greedy, Some(m.pos), rounds[k], j);
      n := rest + 1;
      assert Times(x, s, rounds[k].pos, j, n - 1);
    }
  }

  lemma LoopLater(x: Regex, b: nat, s: string, min: nat, max: Option<nat>, greedy: bool,
                  prev: Option<nat>, m: Match, j: nat)
    requires m.pos <= |s| && Reaches(Loop(x, b, s, min, max, greedy, prev, m), j)
    ensures m.pos <= j <= |s|
  {
    hide Loop;
  }

  /** A further round comes later in the loop's order of descent. */
  lemma RoundsGoOn(x: Regex, b: nat, s: string, min: nat, max: Option<nat>, prev: Option<nat>, m: Match, k: nat)
    requires m.pos <= |s| && k < |Rounds(x, b, s, min, max, prev, m)|
    ensures var r := Rounds(x, b, s, min, max, prev, m)[k];
            || min > 0 || (max.Some? && max.value > 0) || prev.None? || r.pos > m.pos
  {
    hide Matches;
  }

  /** Every bounded repetition is found. */
  lemma {:induction false} BoundedFinds(x: Regex, b: nat, s: string, min: nat, max: Option<nat>, greedy: bool,
                                        prev: Option<nat>, m: Match, j: nat, n: nat)
    requires m.pos <= j <= |s| && max.Some? && min <= n && AtMost(min, max, n) && Times(x, s, m.pos, j, n)
    ensures Reaches(Loop(x, b, s, min, max, greedy, prev, m), j)
    decreases x, 1, n
  {
    hide Loop, Matches, Reaches, Accepts;
    LoopUnfolds(x, b, s, min, max, greedy, prev, m, j);
    if n > 0 {
      var p: nat :| m.pos <= p <= j && Accepts(x, s, m.pos, p) && Times(x, s, p, j, n - 1);
      MatchesAre(x, b, s, m, p);
      var k := Reached(Matches(x, b, s, m), p);
      var next := if min > 0 then min - 1 else 0;
      var rounds := Rounds(x, b, s, min, max, prev, m);
      assert rounds == Matches(x, b, s, m);
      BoundedFinds(x, b, s, next, Less(max), greedy, Some(m.pos), rounds[k], j, n - 1);
    }
  }

  lemma Reached(ms: seq<Match>, j: nat) returns (k: nat)
    requires Reaches(ms, j)
    ensures k < |ms| && ms[k].pos == j
  {
    k :| 0 <= k < |ms| && ms[k].pos == j;
  }

  /** Every unbounded repetition is found, once superfluous empty stretches are left out. */
  lemma {:induction false} UnboundedFinds(x: Regex, b: nat, s: string, min: nat, greedy: bool,
                                          prev: Option<nat>, m: Match, j: nat, n: nat)
    requires m.pos <= j <= |s| && Lean(x, s, m.pos, j, min, n) && min <= n
    requires min == 0 && n > 0 ==> prev != Some(m.pos)
    ensures Reaches(Loop(x, b, s, min, None, greedy, prev, m), j)
    decreases x, 1, n
  {
    hide Loop, Matches, Reaches, Accepts;
    LoopUnfolds(x, b, s, min, None, greedy, prev, m, j);
    if n > 0 {
      var p := FirstStretch(x, s, m.pos, j, min, n);
      MatchesAre(x, b, s, m, p);
      var i := Reached(Matches(x, b, s, m), p);
      var next := if min > 0 then min - 1 else 0;
      var rounds := Rounds(x, b, s, min, None, prev, m);
      var k := RoundFor(x, b, s, min, prev, m, i);
      UnboundedFinds(x, b, s, next, greedy, Some(m.pos), rounds[k], j, n - 1);
    }
  }

  lemma FirstStretch(x: Regex, s: string, i: nat, j: nat, min: nat, n: nat) returns (p: nat)
    requires i <= j <= |s| && n > 0 && min <= n && Lean(x, s, i, j, min, n)
    ensures i <= p <= j && Accepts(x, s, i, p) && Lean(x, s, p, j, if min > 0 then min - 1 else 0, n - 1)
    ensures n > min ==> i < p
  {
    hide Accepts;
    if n > min {
      p :| i < p <= j && Accepts(x, s, i, p) && FullTimes(x, s, p, j, n - 1);
      FullIsTimes(x, s, p, j, n - 1);
    } else {
      assert Times(x, s, i, j, n);
      p :| i <= p <= j && Accepts(x, s, i, p) && Times(x, s, p, j, n - 1);
    }
  }

  lemma RoundFor(x: Regex, b: nat, s: string, min: nat, prev: Option<nat>, m: Match, i: nat) returns (k: nat)
    requires m.pos <= |s| && i < |Matches(x, b, s, m)|
    requires min == 0 ==> prev != Some(m.pos) && Matches(x, b, s, m)[i].pos > m.pos
    ensures var rounds := Rounds(x, b, s, min, None, prev, m); k < |rounds| && rounds[k] == Matches(x, b, s, m)[i]
  {
    hide Matches;
    var once := Matches(x, b, s, m);
    if min > 0 || prev.None? {
      k := i;
    } else {
      AdvancingHas(once, m.pos, s, i);
      k :| 0 <= k < |Advancing(once, m.pos, s)| && Advancing(once, m.pos, s)[k] == once[i];
    }
  }

  /** The search finds a match at a position exactly when the expression accepts some stretch
      from there, and what it finds is such a stretch. */
  lemma FoundIffAccepted(r: Regex, s: string, i: nat)
    requires i <= |s|
    ensures MatchAt(r, s, i).Some? <==> exists j: nat :: i <= j <= |s| && Accepts(r, s, i, j)
    ensures MatchAt(r, s, i).Some? ==> Accepts(r, s, i, MatchAt(r, s, i).value.end)
  {
    var m := Match(i, map[]);
    var ms := Matches(r, 1, s, m);
    if ms != [] { MatchesAre(r, 1, s, m, ms[0].pos); }
    forall j: nat | i <= j <= |s| && Accepts(r, s, i, j) ensures ms != [] { MatchesAre(r, 1, s, m, j); }
    hide Matches, Accepts;
  }

  // Greedy and lazy

  /** The length of the run of characters of a class at `i`. */
  function RunLength(chars: set<char>, negated: bool, s: string, i: nat): (n: nat)
    requires i <= |s|
    ensures i + n <= |s| && (i + n < |s| ==> (s[i + n] in chars) == negated)
    ensures forall k :: i <= k < i + n ==> (s[k] in chars) != negated
    decreases |s| - i
  {
    if i < |s| && (s[i] in chars) != negated then 1 + RunLength(chars, negated, s, i + 1) else 0
  }

  /** One greedy round, by whether the class has a character to take. */
  lemma GreedyRound(chars: set<char>, negated: bool, b: nat, s: string, prev: Option<nat>, m: Match)
    requires m.pos <= |s| && prev != Some(m.pos)
    ensures var x := Class(chars, negated);
            var more := if m.pos < |s| && (s[m.pos] in chars) != negated
                        then Loop(x, b, s, 0, None, true, Some(m.pos), m.(pos := m.pos + 1))
                        else [];
            Loop(x, b, s, 0, None, true, prev, m) == more + [m]
  {
    hide Matches, Advancing, LoopAll;
    var x, next := Class(chars, negated), m.(pos := m.pos + 1);
    ClassOnce(chars, negated, b, s, m);
    if m.pos < |s| && (s[m.pos] in chars) != negated {
      OneRound(x, b, s, true, m.pos, m.pos, next);
      OneRound(x, b, s, true, m.pos, m.pos + 1, next);
    } else {
      NoRound(x, b, s, true, m.pos, m.pos);
      if m.pos < |s| { NoRound(x, b, s, true, m.pos, m.pos + 1); }
    }
  }

  lemma ClassOnce(chars: set<char>, negated: bool, b: nat, s: string, m: Match)
    requires m.pos <= |s|
    ensures var once := Matches(Class(chars, negated), b, s, m);
            && once == (if m.pos < |s| && (s[m.pos] in chars) != negated then [m.(pos := m.pos + 1)] else [])
            && Advancing(once, m.pos, s) == once
  {
    hide Loop, LoopAll;
    assert [m.(pos := m.pos + 1)][1..] == [];
  }

  lemma NoRound(x: Regex, b: nat, s: string, greedy: bool, prev: nat, lo: nat)
    requires lo <= |s|
    ensures LoopAll(x, b, s, 0, None, greedy, prev, lo, []) == []
  {
    hide Loop;
  }

  /** Of the ways to repeat a class any number of times, the greedy loop prefers the longest
      and the lazy one the shortest. */
  lemma {:induction false} GreedyAndLazy(chars: set<char>, negated: bool, b: nat, s: string, prev: Option<nat>,
                                         m: Match)
    requires m.pos <= |s| && prev != Some(m.pos)
    ensures var greedy := Loop(Class(chars, negated), b, s, 0, None, true, prev, m);
            greedy != [] && greedy[0].pos == m.pos + RunLength(chars, negated, s, m.pos)
    ensures var lazy := Loop(Class(chars, negated), b, s, 0, None, false, prev, m); lazy != [] && lazy[0] == m
    decreases |s| - m.pos
  {
    LazyFirst(Class(chars, negated), b, s, prev, m);
    GreedyRound(chars, negated, b, s, prev, m);
    hide Loop;
    if m.pos < |s| && (s[m.pos] in chars) != negated {
      GreedyAndLazy(chars, negated, b, s, Some(m.pos), m.(pos := m.pos + 1));
    }
  }

  lemma LazyFirst(x: Regex, b: nat, s: string, prev: Option<nat>, m: Match)
    requires m.pos <= |s| && prev != Some(m.pos)
    ensures var lazy := Loop(x, b, s, 0, None, false, prev, m); lazy != [] && lazy[0] == m
  {
    hide Matches, LoopAll, Advancing;
  }

  lemma OneRound(x: Regex, b: nat, s: string, greedy: bool, prev: nat, lo: nat, m: Match)
    requires lo <= m.pos <= |s|
    ensures LoopAll(x, b, s, 0, None, greedy, prev, lo, [m]) == Loop(x, b, s, 0, None, greedy, Some(prev), m)
  {
    hide Loop;
    assert [m][1..] == [];
  }
}
