/** One combined alternation "(p0)|(p1)|..." in place of hundreds of patterns: its group
    numbers must name the pattern that a pattern-by-pattern search would have found. */
module Attribution {
  import opened Text
  import opened Regexes

  /** A loaded pattern; `compiled` is None when RE2 rejects its text. */
  datatype PatternInfo = PatternInfo(name: string, confidence: string, masvs: string, compiled: Option<Regex>)

  // Searching

  /** A match of a whole expression: its span and the spans of its groups. */
  datatype Loc = Loc(start: nat, end: nat, caps: map<nat, (nat, nat)>)

  function MatchAt(r: Regex, s: string, i: nat): (loc: Option<Loc>)
    requires i <= |s|
    ensures loc.Some? ==> loc.value.start == i && i <= loc.value.end <= |s|
  {
    var ms := Matches(r, 1, s, Match(i, map[]));
    if ms == [] then None else Some(Loc(i, ms[0].pos, ms[0].caps))
  }

  /** The leftmost match starting at `from` or later. */
  function Find(r: Regex, s: string, from: nat): (loc: Option<Loc>)
    requires from <= |s|
    ensures loc.Some? ==> from <= loc.value.start <= loc.value.end <= |s| && loc == MatchAt(r, s, loc.value.start)
    ensures loc.Some? ==> forall i :: from <= i < loc.value.start ==> MatchAt(r, s, i).None?
    ensures loc.None? ==> forall i :: from <= i <= |s| ==> MatchAt(r, s, i).None?
    decreases |s| - from
  {
    if MatchAt(r, s, from).Some? then MatchAt(r, s, from)
    else if from == |s| then None
    else Find(r, s, from + 1)
  }

  // The reference: patterns tried one by one

  predicate MatchesHere(p: PatternInfo, s: string, i: nat)
    requires i <= |s|
  {
    p.compiled.Some? && MatchAt(p.compiled.value, s, i).Some?
  }

  /** The lowest-numbered pattern that matches at position `i`. */
  function FirstAt(patterns: seq<PatternInfo>, s: string, i: nat): (k: Option<nat>)
    requires i <= |s|
    ensures k.Some? ==> k.value < |patterns| && MatchesHere(patterns[k.value], s, i)
    ensures forall j :: 0 <= j < |patterns| && (k.Some? ==> j < k.value) ==> !MatchesHere(patterns[j], s, i)
  {
    if patterns == [] then None
    else
      var n := |patterns| - 1;
      var front := FirstAt(patterns[..n], s, i);
      if front.Some? then front
      else if MatchesHere(patterns[n], s, i) then Some(n) else None
  }

  // The combined expression

  function Combine(so_far: Option<Regex>, p: PatternInfo): Option<Regex> {
    if p.compiled.None? then so_far
    else if so_far.None? then Some(Group(p.compiled.value))
    else Some(Alt(so_far.value, Group(p.compiled.value)))
  }

  /** "(p0)|(p1)|..." over the patterns that compile. */
  function Union(patterns: seq<PatternInfo>): Option<Regex> {
    if patterns == [] then None else Combine(Union(patterns[..|patterns| - 1]), patterns[|patterns| - 1])
  }

  function Groups(p: PatternInfo): nat {
    if p.compiled.None? then 0 else 1 + NumSubexp(p.compiled.value)
  }

  /** The owner of each group of the union; group 0, the whole match, has none. */
  function Owners(patterns: seq<PatternInfo>): seq<int> {
    if patterns == [] then [-1]
    else Owners(patterns[..|patterns| - 1]) + seq(Groups(patterns[|patterns| - 1]), _ => |patterns| - 1)
  }

  /** BuildCombinedRegex. `unionCompiles` is whether RE2 accepts the concatenated text. */
  method BuildCombinedRegex(patterns: seq<PatternInfo>, unionCompiles: bool)
    returns (combined: Option<Regex>, groupToPattern: seq<int>)
    ensures combined == if unionCompiles then Union(patterns) else None
    ensures combined.Some? ==> groupToPattern == Owners(patterns)
    ensures combined.Some? ==> |groupToPattern| == 1 + NumSubexp(combined.value)
  {
    combined := None;
    groupToPattern := [-1];
    for i := 0 to |patterns|
      invariant combined == Union(patterns[..i])
      invariant groupToPattern == Owners(patterns[..i])
      invariant |groupToPattern| == 1 + (if combined.Some? then NumSubexp(combined.value) else 0)
    {
      assert patterns[..i + 1][..i] == patterns[..i];
      ghost var before := groupToPattern;
      if patterns[i].compiled.Some? {
        var groups := 1 + NumSubexp(patterns[i].compiled.value);
        for k := 0 to groups
          invariant groupToPattern == before + seq(k, _ => i)
        {
          groupToPattern := groupToPattern + [i];
        }
        combined := Combine(combined, patterns[i]);
      }
    }
    assert patterns[..|patterns|] == patterns;
    if combined.None? || !unionCompiles {
      return None, [];
    }
  }

  // Attribution by group number

  /** `out`, a preferred match of the union at `m`, belongs to pattern `k`: every group that
      took part is one of its groups, at least one did, and the text matched is what `k`
      alone matches there. */
  ghost predicate OwnedBy(patterns: seq<PatternInfo>, s: string, i: nat, out: Match, k: nat) {
    && i <= |s| && k < |patterns| && MatchesHere(patterns[k], s, i)
    && (exists g :: g in out.caps)
    && (forall g :: g in out.caps ==> 0 < g < |Owners(patterns)| && Owners(patterns)[g] == k)
    && out.pos == MatchAt(patterns[k].compiled.value, s, i).value.end
  }

  lemma {:induction false} UnionGroups(patterns: seq<PatternInfo>)
    ensures |Owners(patterns)| == 1 + (if Union(patterns).Some? then NumSubexp(Union(patterns).value) else 0)
  {
    if patterns != [] { UnionGroups(patterns[..|patterns| - 1]); }
  }

  /** A wrapped pattern, wherever its groups are numbered from: it matches what the pattern
      matches, and the groups that take part are the wrapper and groups inside it. */
  lemma GroupHead(p: Regex, b: nat, s: string, i: nat)
    requires i <= |s|
    ensures var ms := Matches(Group(p), b, s, Match(i, map[]));
            if MatchAt(p, s, i).None? then ms == []
            else ms != [] && ms[0].pos == MatchAt(p, s, i).value.end && b in ms[0].caps
                 && forall g :: g in ms[0].caps ==> b <= g < b + 1 + NumSubexp(p)
  {
    var m := Match(i, map[]);
    MatchesEnds(p, b + 1, 1, s, m, m);
    MatchesAdd(p, b + 1, s, m);
    hide Matches;
    GroupUnfold(p, b, s, m);
    if MatchAt(p, s, i).Some? {
      assert Adds(m, Matches(p, b + 1, s, m)[0], b + 1, NumSubexp(p));
    }
  }

  lemma GroupUnfold(p: Regex, b: nat, s: string, m: Match)
    requires m.pos <= |s|
    ensures Matches(Group(p), b, s, m) == CloseGroup(b, m.pos, Matches(p, b + 1, s, m), s)
  {}

  /** The last alternative on its own, numbered after all the others. */
  lemma LastAlternative(patterns: seq<PatternInfo>, s: string, i: nat)
    requires i <= |s| && patterns != [] && patterns[|patterns| - 1].compiled.Some?
    ensures var n := |patterns| - 1;
            var p := patterns[n].compiled.value;
            var ms := Matches(Group(p), |Owners(patterns[..n])|, s, Match(i, map[]));
            if MatchesHere(patterns[n], s, i) then ms != [] && OwnedBy(patterns, s, i, ms[0], n) else ms == []
  {
    hide Matches, MatchAt;
    var n := |patterns| - 1;
    GroupHead(patterns[n].compiled.value, |Owners(patterns[..n])|, s, i);
    UnionGroups(patterns[..n]);
    assert Owners(patterns) == Owners(patterns[..n]) + seq(Groups(patterns[n]), _ => n);
  }

  lemma OwnedByExtends(patterns: seq<PatternInfo>, s: string, i: nat, out: Match, k: nat)
    requires patterns != [] && OwnedBy(patterns[..|patterns| - 1], s, i, out, k)
    ensures OwnedBy(patterns, s, i, out, k)
  {
    var front := patterns[..|patterns| - 1];
    assert Owners(front) <= Owners(patterns);
  }

  /** The union's preferred match at a position, against the pattern-by-pattern search. */
  lemma {:induction false} UnionHead(patterns: seq<PatternInfo>, s: string, i: nat)
    requires i <= |s| && Union(patterns).Some?
    ensures var ms := Matches(Union(patterns).value, 1, s, Match(i, map[]));
            var k := FirstAt(patterns, s, i);
            if k.Some? then ms != [] && OwnedBy(patterns, s, i, ms[0], k.value) else ms == []
  {
    hide OwnedBy, MatchesHere;
    var n := |patterns| - 1;
    var front := patterns[..n];
    UnionGroups(front);
    if patterns[n].compiled.Some? { LastAlternative(patterns, s, i); }
    if patterns[n].compiled.None? { NoMatch(patterns[n], s, i); }
    if Union(front).Some? {
      UnionHead(front, s, i);
      if FirstAt(front, s, i).Some? {
        OwnedByExtends(patterns, s, i, Matches(Union(front).value, 1, s, Match(i, map[]))[0],
                       FirstAt(front, s, i).value);
      }
    } else {
      NoneCompile(front, s, i);
    }
  }

  lemma NoMatch(p: PatternInfo, s: string, i: nat)
    requires i <= |s| && p.compiled.None?
    ensures !MatchesHere(p, s, i)
  {}

  lemma {:induction false} NoneCompile(patterns: seq<PatternInfo>, s: string, i: nat)
    requires i <= |s| && Union(patterns).None?
    ensures FirstAt(patterns, s, i).None?
  {
    if patterns != [] { NoneCompile(patterns[..|patterns| - 1], s, i); }
  }

  /** The combined expression agrees with the patterns it stands for, on every text and from
      every position: it matches exactly where some compiled pattern does; the match it
      finds is the one its owner alone would find; and every group that took part maps to
      the owner, the lowest-numbered pattern matching at the leftmost possible position. */
  lemma CombinedAgrees(patterns: seq<PatternInfo>, s: string, from: nat)
    requires from <= |s| && Union(patterns).Some?
    ensures var loc := Find(Union(patterns).value, s, from);
      && (loc.None? <==> forall i :: from <= i <= |s| ==> FirstAt(patterns, s, i).None?)
      && (loc.Some? ==>
            var start := loc.value.start;
            var k := FirstAt(patterns, s, start);
            && (forall i :: from <= i < start ==> FirstAt(patterns, s, i).None?)
            && k.Some? && OwnedBy(patterns, s, start, Match(loc.value.end, loc.value.caps), k.value)
            && Find(patterns[k.value].compiled.value, s, from).Some?
            && Find(patterns[k.value].compiled.value, s, from).value.start == start
            && Find(patterns[k.value].compiled.value, s, from).value.end == loc.value.end)
  {
    var union := Union(patterns).value;
    forall i | from <= i <= |s|
      ensures MatchAt(union, s, i).Some? <==> FirstAt(patterns, s, i).Some?
      ensures MatchAt(union, s, i).Some? ==>
                OwnedBy(patterns, s, i, Match(MatchAt(union, s, i).value.end, MatchAt(union, s, i).value.caps),
                        FirstAt(patterns, s, i).value)
    {
      UnionHead(patterns, s, i);
    }
    hide Matches;
    var loc := Find(union, s, from);
    if loc.Some? {
      var start := loc.value.start;
      assert from <= start <= |s| && FirstAt(patterns, s, start).Some?;
      var k := FirstAt(patterns, s, start).value;
      OwnerFindsSame(patterns, s, from, start, k);
    }
  }

  /** A pattern that matches where no pattern matches earlier finds that match itself. */
  lemma OwnerFindsSame(patterns: seq<PatternInfo>, s: string, from: nat, start: nat, k: nat)
    requires from <= start <= |s| && k < |patterns| && MatchesHere(patterns[k], s, start)
    requires forall i :: from <= i < start ==> FirstAt(patterns, s, i).None?
    ensures var own := Find(patterns[k].compiled.value, s, from);
            own.Some? && own == MatchAt(patterns[k].compiled.value, s, start)
  {
    hide MatchAt;
    forall i | from <= i < start ensures MatchAt(patterns[k].compiled.value, s, i).None? {
      assert FirstAt(patterns, s, i).None?;
      assert !MatchesHere(patterns[k], s, i);
    }
  }
}
