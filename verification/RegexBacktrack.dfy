/** The preferred match is the one a backtracking engine finds first: try the left
    alternative before the right one, and another round of a greedy loop before stopping (of
    a lazy loop after). The engine here works by continuations and stops at its first success. */
module RegexBacktrack {
  import opened Text
  import opened Regexes
  import opened Attribution

  /** What is still to be matched behind an expression, as a function of how far it got. */
  type Rest = Match -> Option<Match>

  function OrElse(first: Option<Match>, second: Option<Match>): Option<Match> {
    if first.Some? then first else second
  }

  function Try(r: Regex, b: nat, s: string, m: Match, k: Rest): Option<Match>
    requires m.pos <= |s|
    decreases r, 0, 0, 0, 0, 0, 0
  {
    match r
    case Empty => k(m)
    case Class(chars, negated) =>
      if m.pos < |s| && (s[m.pos] in chars) != negated then k(m.(pos := m.pos + 1)) else None
    case Assert(look) => if Holds(look, s, m.pos) then k(m) else None
    case Cat(x, y) => Try(x, b, s, m, ThenTry(y, b + NumSubexp(x), s, k))
    case Alt(x, y) => OrElse(Try(x, b, s, m, k), Try(y, b + NumSubexp(x), s, m, k))
    case Group(x) => Try(x, b + 1, s, m, ThenClose(b, m.pos, k))
    case Repeat(x, min, max, greedy) => TryLoop(x, b, s, min, max, greedy, None, m, k)
  }

  function ThenTry(y: Regex, c: nat, s: string, k: Rest): Rest
    decreases y, 0, 0, 0, 0, 0, 1
  {
    (m: Match) => if m.pos <= |s| then Try(y, c, s, m, k) else None
  }

  function ThenClose(b: nat, start: nat, k: Rest): Rest {
    (m: Match) => k(Match(m.pos, m.caps[b := (start, m.pos)]))
  }

  function TryLoop(x: Regex, b: nat, s: string, min: nat, max: Option<nat>, greedy: bool,
                   prev: Option<nat>, m: Match, k: Rest): Option<Match>
    requires m.pos <= |s|
    decreases x, 1, min, Rank(max), |s| - m.pos, Stage(prev), 0
  {
    if min > 0 then Try(x, b, s, m, ThenLoop(x, b, s, min - 1, Less(max), greedy, m.pos, m.pos, k))
    else if max == Some(0) || (max.None? && prev == Some(m.pos)) then k(m)
    else
      var more :=
        if max.Some? then Try(x, b, s, m, ThenLoop(x, b, s, 0, Less(max), greedy, m.pos, m.pos, k))
        else if prev.None? then Try(x, b, s, m, ThenLoop(x, b, s, 0, None, greedy, m.pos, m.pos, k))
        else if m.pos == |s| then None
        else Try(x, b, s, m, ThenLoop(x, b, s, 0, None, greedy, m.pos, m.pos + 1, k));
      if greedy then OrElse(more, k(m)) else OrElse(k(m), more)
  }

  function ThenLoop(x: Regex, b: nat, s: string, min: nat, max: Option<nat>, greedy: bool,
                    prev: nat, lo: nat, k: Rest): Rest
    requires lo <= |s|
    decreases x, 1, min, Rank(max), |s| - lo, 1, 1
  {
    (m: Match) => if lo <= m.pos <= |s| then TryLoop(x, b, s, min, max, greedy, Some(prev), m, k) else None
  }

  // The engine against the list of all matches

  /** The first of `ms` behind which the rest matches too. */
  function FirstSome(ms: seq<Match>, k: Rest): Option<Match> {
    if ms == [] then None else OrElse(k(ms[0]), FirstSome(ms[1..], k))
  }

  lemma {:induction false} FirstOfConcat(a: seq<Match>, b: seq<Match>, k: Rest)
    ensures FirstSome(a + b, k) == OrElse(FirstSome(a, k), FirstSome(b, k))
  {
    if a == [] {
      assert a + b == b;
    } else {
      assert (a + b)[1..] == a[1..] + b;
      FirstOfConcat(a[1..], b, k);
    }
  }

  lemma FirstOfOne(m: Match, k: Rest)
    ensures FirstSome([m], k) == k(m)
  {
    assert [m][1..] == [];
  }

  lemma {:induction false} FirstOfClosed(b: nat, start: nat, ms: seq<Match>, s: string, k: Rest)
    requires AllWithin(ms, start, s)
    ensures FirstSome(CloseGroup(b, start, ms, s), k) == FirstSome(ms, ThenClose(b, start, k))
    decreases |ms|
  {
    if ms != [] {
      assert CloseGroup(b, start, ms, s)[1..] == CloseGroup(b, start, ms[1..], s);
      FirstOfClosed(b, start, ms[1..], s, k);
    }
  }

  /** A rest that needs progress does not see the matches without any. */
  lemma {:induction false} FirstAdvancing(ms: seq<Match>, from: nat, s: string, k: Rest)
    requires AllWithin(ms, from, s) && forall m: Match :: m.pos <= from ==> k(m) == None
    ensures FirstSome(Advancing(ms, from, s), k) == FirstSome(ms, k)
    decreases |ms|
  {
    if ms != [] {
      FirstAdvancing(ms[1..], from, s, k);
      if ms[0].pos > from {
        FirstOfConcat([ms[0]], Advancing(ms[1..], from, s), k);
        FirstOfOne(ms[0], k);
      }
    }
  }

  /** Backtracking finds the first match in the list behind which the rest matches. */
  lemma {:induction false} TryIs(r: Regex, b: nat, s: string, m: Match, k: Rest)
    requires m.pos <= |s|
    ensures Try(r, b, s, m, k) == FirstSome(Matches(r, b, s, m), k)
    decreases r, 0, 0, 0, 0, 0, 0
  {
    hide FirstSome, Loop, TryLoop, MatchesAll, ThenTry, ThenClose;
    NothingFirst(k);
    match r
    case Empty => FirstOfOne(m, k);
    case Class(_, _) => if m.pos < |s| { FirstOfOne(m.(pos := m.pos + 1), k); }
    case Assert(_) => FirstOfOne(m, k);
    case Cat(x, y) =>
      TryIs(x, b, s, m, ThenTry(y, b + NumSubexp(x), s, k));
      TryAllIs(y, b + NumSubexp(x), s, m.pos, Matches(x, b, s, m), k);
    case Alt(x, y) =>
      TryIs(x, b, s, m, k);
      TryIs(y, b + NumSubexp(x), s, m, k);
      FirstOfConcat(Matches(x, b, s, m), Matches(y, b + NumSubexp(x), s, m), k);
    case Group(x) =>
      TryIs(x, b + 1, s, m, ThenClose(b, m.pos, k));
      FirstOfClosed(b, m.pos, Matches(x, b + 1, s, m), s, k);
    case Repeat(x, min, max, greedy) =>
      TryLoopIs(x, b, s, min, max, greedy, None, m, k);
  }

  lemma {:induction false} TryAllIs(r: Regex, c: nat, s: string, lo: nat, ms: seq<Match>, k: Rest)
    requires AllWithin(ms, lo, s)
    ensures FirstSome(MatchesAll(r, c, s, lo, ms), k) == FirstSome(ms, ThenTry(r, c, s, k))
    decreases r, 0, 0, 0, 0, 0, 1 + |ms|
  {
    if ms != [] {
      TryIs(r, c, s, ms[0], k);
      TryAllIs(r, c, s, lo, ms[1..], k);
      FirstOfConcat(Matches(r, c, s, ms[0]), MatchesAll(r, c, s, lo, ms[1..]), k);
    }
  }

  lemma {:induction false} TryLoopIs(x: Regex, b: nat, s: string, min: nat, max: Option<nat>, greedy: bool,
                                     prev: Option<nat>, m: Match, k: Rest)
    requires m.pos <= |s|
    ensures TryLoop(x, b, s, min, max, greedy, prev, m, k) == FirstSome(Loop(x, b, s, min, max, greedy, prev, m), k)
    decreases x, 1, min, Rank(max), |s| - m.pos, Stage(prev), 0
  {
    hide Matches, LoopAll, Advancing, Try, FirstSome;
    var once := Matches(x, b, s, m);
    FirstOfOne(m, k);
    if min > 0 {
      TryIs(x, b, s, m, ThenLoop(x, b, s, min - 1, Less(max), greedy, m.pos, m.pos, k));
      TryLoopAllIs(x, b, s, min - 1, Less(max), greedy, m.pos, m.pos, once, k);
    } else if max == Some(0) || (max.None? && prev == Some(m.pos)) {
    } else if max.Some? {
      TryIs(x, b, s, m, ThenLoop(x, b, s, 0, Less(max), greedy, m.pos, m.pos, k));
      TryLoopAllIs(x, b, s, 0, Less(max), greedy, m.pos, m.pos, once, k);
      Either(LoopAll(x, b, s, 0, Less(max), greedy, m.pos, m.pos, once), m, k);
    } else if prev.None? {
      TryIs(x, b, s, m, ThenLoop(x, b, s, 0, None, greedy, m.pos, m.pos, k));
      TryLoopAllIs(x, b, s, 0, None, greedy, m.pos, m.pos, once, k);
      Either(LoopAll(x, b, s, 0, None, greedy, m.pos, m.pos, once), m, k);
    } else if m.pos < |s| {
      var rest, further := ThenLoop(x, b, s, 0, None, greedy, m.pos, m.pos + 1, k), Advancing(once, m.pos, s);
      TryIs(x, b, s, m, rest);
      FirstAdvancing(once, m.pos, s, rest);
      TryLoopAllIs(x, b, s, 0, None, greedy, m.pos, m.pos + 1, further, k);
      Either(LoopAll(x, b, s, 0, None, greedy, m.pos, m.pos + 1, further), m, k);
    } else {
      Either([], m, k);
      NothingFirst(k);
    }
  }

  lemma NothingFirst(k: Rest)
    ensures FirstSome([], k) == None
  {}

  lemma Either(more: seq<Match>, m: Match, k: Rest)
    ensures FirstSome(more + [m], k) == OrElse(FirstSome(more, k), k(m))
    ensures FirstSome([m] + more, k) == OrElse(k(m), FirstSome(more, k))
  {
    hide FirstSome;
    FirstOfOne(m, k);
    FirstOfConcat(more, [m], k);
    FirstOfConcat([m], more, k);
  }

  lemma {:induction false} TryLoopAllIs(x: Regex, b: nat, s: string, min: nat, max: Option<nat>, greedy: bool,
                                        prev: nat, lo: nat, ms: seq<Match>, k: Rest)
    requires AllWithin(ms, lo, s) && lo <= |s|
    ensures FirstSome(LoopAll(x, b, s, min, max, greedy, prev, lo, ms), k)
         == FirstSome(ms, ThenLoop(x, b, s, min, max, greedy, prev, lo, k))
    decreases x, 1, min, Rank(max), |s| - lo, 1, 1 + |ms|
  {
    hide Loop;
    if ms != [] {
      TryLoopIs(x, b, s, min, max, greedy, Some(prev), ms[0], k);
      TryLoopAllIs(x, b, s, min, max, greedy, prev, lo, ms[1..], k);
      var here := Loop(x, b, s, min, max, greedy, Some(prev), ms[0]);
      FirstOfConcat(here, LoopAll(x, b, s, min, max, greedy, prev, lo, ms[1..]), k);
    }
  }

  /** The match of an expression at a position, groups included, is the one that backtracking
      finds there. */
  lemma MatchAtBacktracks(r: Regex, s: string, i: nat)
    requires i <= |s|
    ensures var found := Try(r, 1, s, Match(i, map[]), (m: Match) => Some(m));
            MatchAt(r, s, i) == if found.None? then None else Some(Loc(i, found.value.pos, found.value.caps))
  {
    var k: Rest := (m: Match) => Some(m);
    TryIs(r, 1, s, Match(i, map[]), k);
    hide Matches, Try;
  }
}
