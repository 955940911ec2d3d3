/** The string extractor of the Mach-O reader: every maximal run of printable bytes. */
module MachO {
  type Byte = b: int | 0 <= b < 256

  const MIN_LEN := 4

  predicate Printable(b: Byte) { b == 0x09 || 0x20 <= b <= 0x7e }

  predicate AllPrintable(data: seq<Byte>, a: nat, b: nat) {
    a <= b <= |data| && forall i :: a <= i < b ==> Printable(data[i])
  }

  /** A run of printable bytes that cannot be made longer at either end. */
  predicate MaximalRun(data: seq<Byte>, a: nat, b: nat) {
    && a < b <= |data| && AllPrintable(data, a, b)
    && (a > 0 ==> !Printable(data[a - 1])) && (b < |data| ==> !Printable(data[b]))
  }

  predicate LongRun(data: seq<Byte>, a: nat, b: nat) { MaximalRun(data, a, b) && b - a >= MIN_LEN }

  /** Two maximal runs that meet are the same run. */
  lemma SameRun(data: seq<Byte>, a: nat, b: nat, c: nat, d: nat)
    requires MaximalRun(data, a, b) && MaximalRun(data, c, d) && a < d && c < b
    ensures a == c && b == d
  {
  }

  /** `out` is the text of the long maximal runs of `data`, each once and in order, found at
      `runs`; and every printable stretch that long lies inside one of them. */
  ghost predicate Extracts(data: seq<Byte>, out: seq<seq<Byte>>, runs: seq<(nat, nat)>) {
    && |out| == |runs|
    && (forall k :: 0 <= k < |runs| ==> LongRun(data, runs[k].0, runs[k].1) && out[k] == data[runs[k].0..runs[k].1])
    && (forall j, k :: 0 <= j < k < |runs| ==> runs[j].1 < runs[k].0)
    && (forall a: nat, b: nat :: LongRun(data, a, b) ==> (a, b) in runs)
    && (forall p: nat, q: nat :: AllPrintable(data, p, q) && q - p >= MIN_LEN ==>
          exists k :: 0 <= k < |runs| && runs[k].0 <= p && q <= runs[k].1)
  }

  /** The same for the runs that end before `i`. */
  ghost predicate Found(data: seq<Byte>, out: seq<seq<Byte>>, runs: seq<(nat, nat)>, i: nat) {
    && |out| == |runs|
    && (forall k :: 0 <= k < |runs| ==> LongRun(data, runs[k].0, runs[k].1) && out[k] == data[runs[k].0..runs[k].1])
    && (forall k :: 0 <= k < |runs| ==> runs[k].1 < i)
    && (forall j, k :: 0 <= j < k < |runs| ==> runs[j].1 < runs[k].0)
    && (forall a: nat, b: nat :: LongRun(data, a, b) && b < i ==> (a, b) in runs)
  }

  ghost predicate NoneEndsAt(data: seq<Byte>, i: nat) { forall a: nat :: !LongRun(data, a, i) }

  lemma FoundNone(data: seq<Byte>, out: seq<seq<Byte>>, runs: seq<(nat, nat)>, i: nat)
    requires Found(data, out, runs, i) && NoneEndsAt(data, i)
    ensures Found(data, out, runs, i + 1)
  {
    hide LongRun;
  }

  lemma FoundOne(data: seq<Byte>, out: seq<seq<Byte>>, runs: seq<(nat, nat)>, start: nat, i: nat)
    requires Found(data, out, runs, i) && LongRun(data, start, i)
    ensures Found(data, out + [data[start..i]], runs + [(start, i)], i + 1)
  {
    forall a: nat | LongRun(data, a, i) ensures a == start { SameRun(data, a, i, start, i); }
    forall k | 0 <= k < |runs| ensures runs[k].1 < start { Apart(data, runs[k].0, runs[k].1, start, i); }
    var more := runs + [(start, i)];
    hide LongRun;
    forall a: nat, b: nat | LongRun(data, a, b) && b < i + 1 ensures (a, b) in more {
      if b == i { assert more[|runs|] == (start, i); } else { assert (a, b) in runs; }
    }
  }

  /** A maximal run that ends sooner ends before the other starts. */
  lemma Apart(data: seq<Byte>, a: nat, b: nat, c: nat, d: nat)
    requires MaximalRun(data, a, b) && MaximalRun(data, c, d) && b < d
    ensures b < c
  {
    if c < b { SameRun(data, a, b, c, d); }
  }

  lemma FoundAll(data: seq<Byte>, out: seq<seq<Byte>>, runs: seq<(nat, nat)>)
    requires Found(data, out, runs, |data| + 1)
    ensures Extracts(data, out, runs)
  {
    forall p: nat, q: nat | AllPrintable(data, p, q) && q - p >= MIN_LEN
      ensures exists k :: 0 <= k < |runs| && runs[k].0 <= p && q <= runs[k].1
    {
      var a, b := Widen(data, p, q);
      assert (a, b) in runs;
    }
  }

  /** `start` is where the run of printable bytes up to `i` begins, or -1 if there is none. */
  ghost predicate OpenAt(data: seq<Byte>, start: int, i: nat) {
    if start >= 0 then
      start < i <= |data| && AllPrintable(data, start, i) && (start > 0 ==> !Printable(data[start - 1]))
    else start == -1 && (0 < i <= |data| ==> !Printable(data[i - 1]))
  }

  lemma Continue(data: seq<Byte>, start: int, i: nat)
    requires OpenAt(data, start, i) && i < |data| && Printable(data[i])
    ensures OpenAt(data, if start < 0 then i else start, i + 1) && NoneEndsAt(data, i)
  {}

  lemma Closed(data: seq<Byte>, start: int, i: nat)
    requires OpenAt(data, start, i) && i <= |data| && (i < |data| ==> !Printable(data[i]))
    ensures start >= 0 ==> MaximalRun(data, start, i)
    ensures OpenAt(data, -1, i + 1) && (start < 0 || i - start < MIN_LEN ==> NoneEndsAt(data, i))
  {
    forall a: nat | LongRun(data, a, i) && start >= 0 ensures a == start { SameRun(data, a, i, start, i); }
  }

  /** splitNulStrings: exactly the maximal runs of at least four printable bytes. */
  method SplitNulStrings(data: seq<Byte>) returns (out: seq<seq<Byte>>)
    ensures exists runs :: Extracts(data, out, runs)
  {
    hide Found, NoneEndsAt, OpenAt, AllPrintable;
    ghost var runs: seq<(nat, nat)> := [];
    out := [];
    var start := -1;
    var i := 0;
    Starts(data);
    while i <= |data|
      invariant 0 <= i <= |data| + 1
      invariant OpenAt(data, start, i) && Found(data, out, runs, i)
    {
      if i < |data| && Printable(data[i]) {
        Continue(data, start, i);
        FoundNone(data, out, runs, i);
        if start < 0 {
          start := i;
        }
      } else {
        Closed(data, start, i);
        if start >= 0 && i - start >= MIN_LEN {
          FoundOne(data, out, runs, start, i);
          out := out + [data[start..i]];
          runs := runs + [(start, i)];
        } else {
          FoundNone(data, out, runs, i);
        }
        start := -1;
      }
      i := i + 1;
    }
    FoundAll(data, out, runs);
  }

  lemma Starts(data: seq<Byte>)
    ensures OpenAt(data, -1, 0) && Found(data, [], [], 0)
  {}

  /** Every printable stretch lies in a maximal run. */
  lemma Widen(data: seq<Byte>, p: nat, q: nat) returns (a: nat, b: nat)
    requires p < q && AllPrintable(data, p, q)
    ensures a <= p && q <= b && MaximalRun(data, a, b)
  {
    a, b := p, q;
    while a > 0 && Printable(data[a - 1])
      invariant a <= p && AllPrintable(data, a, q)
    {
      a := a - 1;
    }
    while b < |data| && Printable(data[b])
      invariant q <= b && AllPrintable(data, a, b)
    {
      b := b + 1;
    }
  }
}
