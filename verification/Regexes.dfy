/** Regular expressions with capture groups, matched the way Go's `regexp` does:
    leftmost, and among the matches starting there the first in priority order.
    Groups are numbered left to right by their opening parenthesis. */
module Regexes {
  import opened Text

  datatype Look = BeginText | EndText | BeginLine | EndLine | WordBoundary | NoWordBoundary

  datatype Regex =
    | Empty
    | Class(chars: set<char>, negated: bool)
    | Assert(look: Look)
    | Cat(left: Regex, right: Regex)
    | Alt(left: Regex, right: Regex)
    | Group(body: Regex)
    | Repeat(body: Regex, min: nat, max: Option<nat>, greedy: bool)   // *, +, ?, {n,m}

  /** regexp.NumSubexp: the number of capture groups. */
  function NumSubexp(r: Regex): nat {
    match r
    case Empty => 0
    case Class(_, _) => 0
    case Assert(_) => 0
    case Cat(x, y) => NumSubexp(x) + NumSubexp(y)
    case Alt(x, y) => NumSubexp(x) + NumSubexp(y)
    case Group(x) => 1 + NumSubexp(x)
    case Repeat(x, _, _, _) => NumSubexp(x)
  }

  /** How far a match has got, and the spans of the groups that took part so far. */
  datatype Match = Match(pos: nat, caps: map<nat, (nat, nat)>)

  predicate IsWord(s: string, i: int) {
    0 <= i < |s| && ('a' <= s[i] <= 'z' || 'A' <= s[i] <= 'Z' || '0' <= s[i] <= '9' || s[i] == '_')
  }

  predicate Holds(look: Look, s: string, i: nat)
    requires i <= |s|
  {
    match look
    case BeginText => i == 0
    case EndText => i == |s|
    case BeginLine => i == 0 || s[i - 1] == '\n'
    case EndLine => i == |s| || s[i] == '\n'
    case WordBoundary => IsWord(s, i - 1) != IsWord(s, i)
    case NoWordBoundary => IsWord(s, i - 1) == IsWord(s, i)
  }

  predicate AllWithin(ms: seq<Match>, lo: nat, s: string) {
    forall k :: 0 <= k < |ms| ==> lo <= ms[k].pos <= |s|
  }

  /** All ways for `r`, its groups numbered from `b`, to match `s` on from `m`, the
      preferred way first. */
  function Matches(r: Regex, b: nat, s: string, m: Match): (ms: seq<Match>)
    requires m.pos <= |s|
    ensures AllWithin(ms, m.pos, s)
    decreases r, 0, 0, 0, 0, 0, 0
  {
    match r
    case Empty => [m]
    case Class(chars, negated) =>
      if m.pos < |s| && (s[m.pos] in chars) != negated then [m.(pos := m.pos + 1)] else []
    case Assert(look) => if Holds(look, s, m.pos) then [m] else []
    case Cat(x, y) => MatchesAll(y, b + NumSubexp(x), s, m.pos, Matches(x, b, s, m))
    case Alt(x, y) => Matches(x, b, s, m) + Matches(y, b + NumSubexp(x), s, m)
    case Group(x) => CloseGroup(b, m.pos, Matches(x, b + 1, s, m), s)
    case Repeat(x, min, max, greedy) => Loop(x, b, s, min, max, greedy, None, m)
  }

  /** `r` on from each of `ms` in turn. */
  function MatchesAll(r: Regex, b: nat, s: string, lo: nat, ms: seq<Match>): (out: seq<Match>)
    requires AllWithin(ms, lo, s)
    ensures AllWithin(out, lo, s)
    decreases r, 0, 0, 0, 0, 0, 1 + |ms|
  {
    if ms == [] then [] else Matches(r, b, s, ms[0]) + MatchesAll(r, b, s, lo, ms[1..])
  }

  function CloseGroup(b: nat, start: nat, ms: seq<Match>, ghost s: string): (out: seq<Match>)
    requires AllWithin(ms, start, s)
    ensures AllWithin(out, start, s)
    ensures |out| == |ms|
    ensures forall k :: 0 <= k < |ms| ==> out[k] == Match(ms[k].pos, ms[k].caps[b := (start, ms[k].pos)])
  {
    seq(|ms|, k requires 0 <= k < |ms| => Match(ms[k].pos, ms[k].caps[b := (start, ms[k].pos)]))
  }

  function Advancing(ms: seq<Match>, from: nat, ghost s: string): (out: seq<Match>)
    requires AllWithin(ms, from, s)
    ensures AllWithin(out, from + 1, s)
    ensures forall k :: 0 <= k < |out| ==> out[k] in ms
  {
    if ms == [] then []
    else if ms[0].pos > from then [ms[0]] + Advancing(ms[1..], from, s)
    else Advancing(ms[1..], from, s)
  }

  function Less(max: Option<nat>): Option<nat> {
    if max.Some? && max.value > 0 then Some(max.value - 1) else max
  }

  function Rank(max: Option<nat>): nat { if max.Some? then max.value else 0 }

  function Stage(prev: Option<nat>): nat { if prev.None? then 2 else 1 }

  /** Iterations of `x`: `min` more are due, at most `max` more allowed, the previous one
      began at `prev`. An unbounded loop stops after an iteration that consumed nothing,
      and later iterations must consume something. */
  function Loop(x: Regex, b: nat, s: string, min: nat, max: Option<nat>, greedy: bool, prev: Option<nat>, m: Match):
    (out: seq<Match>)
    requires m.pos <= |s|
    ensures AllWithin(out, m.pos, s)
    decreases x, 1, min, Rank(max), |s| - m.pos, Stage(prev), 0
  {
    if min > 0 then
      LoopAll(x, b, s, min - 1, Less(max), greedy, m.pos, m.pos, Matches(x, b, s, m))
    else if max == Some(0) || (max.None? && prev == Some(m.pos)) then [m]
    else
      var once := Matches(x, b, s, m);
      var more :=
        if max.Some? then LoopAll(x, b, s, 0, Less(max), greedy, m.pos, m.pos, once)
        else if prev.None? then LoopAll(x, b, s, 0, None, greedy, m.pos, m.pos, once)
        else if m.pos == |s| then []
        else LoopAll(x, b, s, 0, None, greedy, m.pos, m.pos + 1, Advancing(once, m.pos, s));
      if greedy then more + [m] else [m] + more
  }

  function LoopAll(x: Regex, b: nat, s: string, min: nat, max: Option<nat>, greedy: bool, prev: nat, lo: nat,
                   ms: seq<Match>):
    (out: seq<Match>)
    requires AllWithin(ms, lo, s) && lo <= |s|
    ensures AllWithin(out, lo, s)
    decreases x, 1, min, Rank(max), |s| - lo, 1, 1 + |ms|
  {
    if ms == [] then []
    else Loop(x, b, s, min, max, greedy, Some(prev), ms[0]) + LoopAll(x, b, s, min, max, greedy, prev, lo, ms[1..])
  }

  // Which groups a match can touch

  /** From `m` to `out` nothing was forgotten and only groups `b` to `b + n - 1` were added. */
  predicate Adds(m: Match, out: Match, b: nat, n: nat) {
    && (forall g :: g in m.caps ==> g in out.caps)
    && (forall g :: g in out.caps ==> g in m.caps || b <= g < b + n)
  }

  predicate AllAdd(m: Match, ms: seq<Match>, b: nat, n: nat) {
    forall k :: 0 <= k < |ms| ==> Adds(m, ms[k], b, n)
  }

  lemma AddsWiden(m: Match, ms: seq<Match>, b: nat, n: nat, b': nat, n': nat)
    requires AllAdd(m, ms, b, n) && b' <= b && b + n <= b' + n'
    ensures AllAdd(m, ms, b', n')
  {}

  lemma {:induction false} AdvancingAdds(m: Match, ms: seq<Match>, from: nat, s: string, b: nat, n: nat)
    requires AllWithin(ms, from, s) && AllAdd(m, ms, b, n)
    ensures AllAdd(m, Advancing(ms, from, s), b, n)
  {}

  lemma AddsNothing(m: Match, out: Match, b: nat, n: nat)
    requires out.caps == m.caps
    ensures Adds(m, out, b, n)
  {}

  lemma CloseAdds(m: Match, ms: seq<Match>, b: nat, n: nat, s: string)
    requires AllWithin(ms, m.pos, s) && AllAdd(m, ms, b + 1, n)
    ensures AllAdd(m, CloseGroup(b, m.pos, ms, s), b, 1 + n)
  {}

  lemma {:induction false} MatchesAdd(r: Regex, b: nat, s: string, m: Match)
    requires m.pos <= |s|
    ensures AllAdd(m, Matches(r, b, s, m), b, NumSubexp(r))
    decreases r, 0, 0, 0, 0, 0, 0
  {
    hide Adds, MatchesAll, Loop, AllWithin, Holds;
    match r
    case Empty => AddsNothing(m, m, b, 0);
    case Class(_, _) => AddsNothing(m, m.(pos := m.pos + 1), b, 0);
    case Assert(_) => AddsNothing(m, m, b, 0);
    case Cat(x, y) =>
      var first := Matches(x, b, s, m);
      MatchesAdd(x, b, s, m);
      AddsWiden(m, first, b, NumSubexp(x), b, NumSubexp(r));
      MatchesAllAdd(y, b + NumSubexp(x), s, m.pos, first, m, b, NumSubexp(r));
    case Alt(x, y) =>
      MatchesAdd(x, b, s, m);
      MatchesAdd(y, b + NumSubexp(x), s, m);
      AddsWiden(m, Matches(x, b, s, m), b, NumSubexp(x), b, NumSubexp(r));
      AddsWiden(m, Matches(y, b + NumSubexp(x), s, m), b + NumSubexp(x), NumSubexp(y), b, NumSubexp(r));
    case Group(x) =>
      MatchesAdd(x, b + 1, s, m);
      CloseAdds(m, Matches(x, b + 1, s, m), b, NumSubexp(x), s);
    case Repeat(x, min, max, greedy) =>
      AddsNothing(m, m, b, NumSubexp(x));
      LoopAdd(x, b, s, min, max, greedy, None, m, m);
  }

  lemma {:induction false} MatchesAllAdd(r: Regex, c: nat, s: string, lo: nat, ms: seq<Match>, m: Match, b: nat, n: nat)
    requires AllWithin(ms, lo, s) && AllAdd(m, ms, b, n) && b <= c && c + NumSubexp(r) <= b + n
    ensures AllAdd(m, MatchesAll(r, c, s, lo, ms), b, n)
    decreases r, 0, 0, 0, 0, 0, 1 + |ms|
  {
    if ms != [] {
      MatchesAdd(r, c, s, ms[0]);
      Chain(m, ms[0], Matches(r, c, s, ms[0]), b, n, c, NumSubexp(r));
      MatchesAllAdd(r, c, s, lo, ms[1..], m, b, n);
    }
  }

  lemma Chain(m: Match, mid: Match, ms: seq<Match>, b: nat, n: nat, c: nat, k: nat)
    requires Adds(m, mid, b, n) && AllAdd(mid, ms, c, k) && b <= c && c + k <= b + n
    ensures AllAdd(m, ms, b, n)
  {}

  lemma {:induction false} LoopAdd(x: Regex, b: nat, s: string, min: nat, max: Option<nat>, greedy: bool,
                                   prev: Option<nat>, m: Match, m0: Match)
    requires m.pos <= |s| && Adds(m0, m, b, NumSubexp(x))
    ensures AllAdd(m0, Loop(x, b, s, min, max, greedy, prev, m), b, NumSubexp(x))
    decreases x, 1, min, Rank(max), |s| - m.pos, Stage(prev), 0
  {
    hide Matches, LoopAll, Advancing, AllWithin, Adds;
    var n := NumSubexp(x);
    var once := Matches(x, b, s, m);
    MatchesAdd(x, b, s, m);
    Chain(m0, m, once, b, n, b, n);
    if min > 0 {
      LoopAllAdd(x, b, s, min - 1, Less(max), greedy, m.pos, m.pos, once, m0);
    } else if max == Some(0) || (max.None? && prev == Some(m.pos)) {
    } else if max.Some? {
      LoopAllAdd(x, b, s, 0, Less(max), greedy, m.pos, m.pos, once, m0);
    } else if prev.None? {
      LoopAllAdd(x, b, s, 0, None, greedy, m.pos, m.pos, once, m0);
    } else if m.pos < |s| {
      AdvancingAdds(m0, once, m.pos, s, b, n);
      LoopAllAdd(x, b, s, 0, None, greedy, m.pos, m.pos + 1, Advancing(once, m.pos, s), m0);
    }
  }

  lemma {:induction false} LoopAllAdd(x: Regex, b: nat, s: string, min: nat, max: Option<nat>, greedy: bool,
                                      prev: nat, lo: nat, ms: seq<Match>, m0: Match)
    requires AllWithin(ms, lo, s) && lo <= |s| && AllAdd(m0, ms, b, NumSubexp(x))
    ensures AllAdd(m0, LoopAll(x, b, s, min, max, greedy, prev, lo, ms), b, NumSubexp(x))
    decreases x, 1, min, Rank(max), |s| - lo, 1, 1 + |ms|
  {
    if ms != [] {
      LoopAdd(x, b, s, min, max, greedy, Some(prev), ms[0], m0);
      LoopAllAdd(x, b, s, min, max, greedy, prev, lo, ms[1..], m0);
    }
  }

  // The numbering of groups does not affect what is matched

  predicate SameEnds(ms: seq<Match>, ns: seq<Match>) {
    |ms| == |ns| && forall k :: 0 <= k < |ms| ==> ms[k].pos == ns[k].pos
  }

  lemma EndsOne(m: Match, n: Match)
    requires m.pos == n.pos
    ensures SameEnds([m], [n])
  {}

  lemma EndsNone()
    ensures SameEnds([], [])
  {}

  lemma EndsConcat(ms: seq<Match>, ns: seq<Match>, ms': seq<Match>, ns': seq<Match>)
    requires SameEnds(ms, ns) && SameEnds(ms', ns')
    ensures SameEnds(ms + ms', ns + ns')
  {}

  lemma EndsClosed(b: nat, c: nat, start: nat, ms: seq<Match>, ns: seq<Match>, s: string)
    requires AllWithin(ms, start, s) && AllWithin(ns, start, s) && SameEnds(ms, ns)
    ensures SameEnds(CloseGroup(b, start, ms, s), CloseGroup(c, start, ns, s))
  {}

  lemma EndsBeside(ms: seq<Match>, ns: seq<Match>, m: Match, n: Match)
    requires m.pos == n.pos && (ms == ns == [] || SameEnds(ms, ns))
    ensures SameEnds(ms + [m], ns + [n]) && SameEnds([m] + ms, [n] + ns)
  {}

  lemma {:induction false} AdvancingEnds(ms: seq<Match>, ns: seq<Match>, from: nat, s: string)
    requires AllWithin(ms, from, s) && AllWithin(ns, from, s) && SameEnds(ms, ns)
    ensures SameEnds(Advancing(ms, from, s), Advancing(ns, from, s))
  {
    if ms != [] {
      AdvancingEnds(ms[1..], ns[1..], from, s);
      EndsBeside(Advancing(ms[1..], from, s), Advancing(ns[1..], from, s), ms[0], ns[0]);
    }
  }

  lemma {:induction false} MatchesEnds(r: Regex, b: nat, c: nat, s: string, m: Match, n: Match)
    requires m.pos == n.pos <= |s|
    ensures SameEnds(Matches(r, b, s, m), Matches(r, c, s, n))
    decreases r, 0, 0, 0, 0, 0, 0
  {
    hide SameEnds, MatchesAll, Loop, AllWithin, Holds;
    EndsOne(m, n);
    EndsNone();
    match r
    case Empty =>
    case Class(_, _) => EndsOne(m.(pos := m.pos + 1), n.(pos := n.pos + 1));
    case Assert(_) =>
    case Cat(x, y) =>
      MatchesEnds(x, b, c, s, m, n);
      MatchesAllEnds(y, b + NumSubexp(x), c + NumSubexp(x), s, m.pos, Matches(x, b, s, m), Matches(x, c, s, n));
    case Alt(x, y) =>
      MatchesEnds(x, b, c, s, m, n);
      MatchesEnds(y, b + NumSubexp(x), c + NumSubexp(x), s, m, n);
      EndsConcat(Matches(x, b, s, m), Matches(x, c, s, n),
                 Matches(y, b + NumSubexp(x), s, m), Matches(y, c + NumSubexp(x), s, n));
    case Group(x) =>
      MatchesEnds(x, b + 1, c + 1, s, m, n);
      EndsClosed(b, c, m.pos, Matches(x, b + 1, s, m), Matches(x, c + 1, s, n), s);
    case Repeat(x, min, max, greedy) => LoopEnds(x, b, c, s, min, max, greedy, None, m, n);
  }

  lemma {:induction false} MatchesAllEnds(r: Regex, b: nat, c: nat, s: string, lo: nat, ms: seq<Match>, ns: seq<Match>)
    requires AllWithin(ms, lo, s) && AllWithin(ns, lo, s) && SameEnds(ms, ns)
    ensures SameEnds(MatchesAll(r, b, s, lo, ms), MatchesAll(r, c, s, lo, ns))
    decreases r, 0, 0, 0, 0, 0, 1 + |ms|
  {
    if ms != [] {
      MatchesEnds(r, b, c, s, ms[0], ns[0]);
      MatchesAllEnds(r, b, c, s, lo, ms[1..], ns[1..]);
    }
  }

  lemma {:induction false} LoopEnds(x: Regex, b: nat, c: nat, s: string, min: nat, max: Option<nat>, greedy: bool,
                                    prev: Option<nat>, m: Match, n: Match)
    requires m.pos == n.pos <= |s|
    ensures SameEnds(Loop(x, b, s, min, max, greedy, prev, m), Loop(x, c, s, min, max, greedy, prev, n))
    decreases x, 1, min, Rank(max), |s| - m.pos, Stage(prev), 0
  {
    hide Matches, LoopAll, Advancing, AllWithin, SameEnds;
    EndsOne(m, n);
    var ms, ns := Matches(x, b, s, m), Matches(x, c, s, n);
    MatchesEnds(x, b, c, s, m, n);
    if min > 0 {
      LoopAllEnds(x, b, c, s, min - 1, Less(max), greedy, m.pos, m.pos, ms, ns);
    } else if max == Some(0) || (max.None? && prev == Some(m.pos)) {
    } else if max.Some? {
      LoopAllEnds(x, b, c, s, 0, Less(max), greedy, m.pos, m.pos, ms, ns);
      EndsBeside(LoopAll(x, b, s, 0, Less(max), greedy, m.pos, m.pos, ms),
                 LoopAll(x, c, s, 0, Less(max), greedy, m.pos, m.pos, ns), m, n);
    } else if prev.None? {
      LoopAllEnds(x, b, c, s, 0, None, greedy, m.pos, m.pos, ms, ns);
      EndsBeside(LoopAll(x, b, s, 0, None, greedy, m.pos, m.pos, ms),
                 LoopAll(x, c, s, 0, None, greedy, m.pos, m.pos, ns), m, n);
    } else if m.pos < |s| {
      AdvancingEnds(ms, ns, m.pos, s);
      var ms', ns' := Advancing(ms, m.pos, s), Advancing(ns, m.pos, s);
      LoopAllEnds(x, b, c, s, 0, None, greedy, m.pos, m.pos + 1, ms', ns');
      EndsBeside(LoopAll(x, b, s, 0, None, greedy, m.pos, m.pos + 1, ms'),
                 LoopAll(x, c, s, 0, None, greedy, m.pos, m.pos + 1, ns'), m, n);
    } else {
      EndsBeside([], [], m, n);
    }
  }

  lemma {:induction false} LoopAllEnds(x: Regex, b: nat, c: nat, s: string, min: nat, max: Option<nat>, greedy: bool,
                                       prev: nat, lo: nat, ms: seq<Match>, ns: seq<Match>)
    requires AllWithin(ms, lo, s) && AllWithin(ns, lo, s) && lo <= |s| && SameEnds(ms, ns)
    ensures SameEnds(LoopAll(x, b, s, min, max, greedy, prev, lo, ms), LoopAll(x, c, s, min, max, greedy, prev, lo, ns))
    decreases x, 1, min, Rank(max), |s| - lo, 1, 1 + |ms|
  {
    if ms != [] {
      LoopEnds(x, b, c, s, min, max, greedy, Some(prev), ms[0], ns[0]);
      LoopAllEnds(x, b, c, s, min, max, greedy, prev, lo, ms[1..], ns[1..]);
    }
  }
}
