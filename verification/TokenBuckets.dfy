/** The token bucket of golang.org/x/time/rate, over real time and real tokens. Times count
    from the zero time, which is also when a new bucket was last used. */
module TokenBuckets {

  /** Tokens per unit of time, or no limit at all. */
  datatype Limit = Infinite | Every(rate: real)

  datatype Params = Params(limit: Limit, burst: nat)

  datatype Bucket = Bucket(tokens: real, last: real)

  function Fresh(p: Params): Bucket { Bucket(p.burst as real, 0.0) }

  function Min(a: real, b: real): real { if a < b then a else b }

  /** What comes in over a time `dt`. */
  function Accrued(rate: real, dt: real): real { rate * dt }

  /** The tokens a bucket has at `t`, capped at the burst; a clock that went back adds none. */
  function Level(rate: real, burst: nat, b: Bucket, t: real): real {
    if t < b.last then Min(b.tokens, burst as real) else Min(b.tokens + Accrued(rate, t - b.last), burst as real)
  }

  datatype Decision = Decision(ok: bool, bucket: Bucket)

  /** Limiter.Allow at `t`: take one token if there is one; a refusal changes nothing. */
  function Allow(p: Params, b: Bucket, t: real): Decision {
    match p.limit
    case Infinite => Decision(true, b)
    case Every(rate) =>
      var left := Level(rate, p.burst, b, t) - 1.0;
      if p.burst >= 1 && left >= 0.0 then Decision(true, Bucket(left, t)) else Decision(false, b)
  }

  predicate Sane(p: Params, b: Bucket) {
    0.0 <= b.tokens <= p.burst as real && 0.0 <= b.last
  }

  lemma AllowSane(p: Params, b: Bucket, t: real)
    requires Sane(p, b) && 0.0 <= t && b.last <= t
    ensures Sane(p, Allow(p, b, t).bucket) && Allow(p, b, t).bucket.last <= t
  {}

  lemma AccruedNothing(rate: real)
    ensures Accrued(rate, 0.0) == 0.0
  {}

  lemma AccruedNonNegative(rate: real, dt: real)
    requires rate >= 0.0 && dt >= 0.0
    ensures Accrued(rate, dt) >= 0.0
  {}

  lemma AccruedAdds(rate: real, a: real, b: real)
    ensures Accrued(rate, a + b) == Accrued(rate, a) + Accrued(rate, b)
  {}

  lemma AccruedGrows(rate: real, a: real, b: real)
    requires rate >= 0.0 && a <= b
    ensures Accrued(rate, a) <= Accrued(rate, b)
  {
    hide Accrued;
    AccruedNonNegative(rate, b - a);
    AccruedAdds(rate, a, b - a);
  }

  function Max(a: real, b: real): real { if a < b then b else a }

  /** From one clock reading to the next, forward or back, a level grows by no more than what
      comes in over the forward distance. */
  lemma LevelMoves(rate: real, burst: nat, b: Bucket, t: real, u: real)
    requires rate >= 0.0 && b.tokens >= 0.0
    ensures 0.0 <= Level(rate, burst, b, t) <= burst as real
    ensures Level(rate, burst, b, u) <= Level(rate, burst, b, t) + Accrued(rate, Max(0.0, u - t))
  {
    hide Accrued;
    AccruedNonNegative(rate, Max(0.0, u - t));
    if b.last <= t { AccruedNonNegative(rate, t - b.last); }
    if b.last <= u {
      AccruedNonNegative(rate, u - b.last);
      AccruedGrows(rate, u - b.last, Max(0.0, u - t) + Max(0.0, t - b.last));
      AccruedAdds(rate, Max(0.0, u - t), Max(0.0, t - b.last));
      AccruedNothing(rate);
    }
  }

  /** Requests at clock readings `times`, in the order they reach the bucket. */
  function Oks(p: Params, b: Bucket, times: seq<real>): (oks: seq<bool>)
    ensures |oks| == |times|
    decreases |times|
  {
    if times == [] then []
    else var d := Allow(p, b, times[0]); [d.ok] + Oks(p, d.bucket, times[1..])
  }

  function BucketAfter(p: Params, b: Bucket, times: seq<real>): Bucket
    decreases |times|
  {
    if times == [] then b else BucketAfter(p, Allow(p, b, times[0]).bucket, times[1..])
  }

  function Trues(oks: seq<bool>): nat {
    if oks == [] then 0 else (if oks[0] then 1 else 0) + Trues(oks[1..])
  }

  /** How far the clock readings move forward, starting from `t`. */
  function Forward(t: real, times: seq<real>): real
    decreases |times|
  {
    if times == [] then 0.0 else Max(0.0, times[0] - t) + Forward(times[0], times[1..])
  }

  /** How far they step back. */
  function Backward(times: seq<real>): (back: real)
    ensures back >= 0.0
    decreases |times|
  {
    if |times| < 2 then 0.0 else Max(0.0, times[0] - times[1]) + Backward(times[1..])
  }

  lemma {:induction false} ForwardIs(t: real, times: seq<real>)
    ensures Forward(t, times) >= 0.0
    ensures times != [] ==> Forward(times[0], times) == times[|times| - 1] - times[0] + Backward(times)
    decreases |times|
  {
    if times != [] {
      ForwardIs(times[0], times[1..]);
      if |times| > 1 { assert times[1..][|times[1..]| - 1] == times[|times| - 1]; }
    }
  }

  lemma {:induction false} NoBackward(times: seq<real>)
    requires forall i, j :: 0 <= i < j < |times| ==> times[i] <= times[j]
    ensures Backward(times) == 0.0
    decreases |times|
  {
    if |times| >= 2 { NoBackward(times[1..]); }
  }

  lemma {:induction false} OksConcat(p: Params, b: Bucket, a: seq<real>, c: seq<real>)
    ensures Oks(p, b, a + c) == Oks(p, b, a) + Oks(p, BucketAfter(p, b, a), c)
    ensures BucketAfter(p, b, a + c) == BucketAfter(p, BucketAfter(p, b, a), c)
    decreases |a|
  {
    if a == [] {
      assert a + c == c;
    } else {
      assert (a + c)[1..] == a[1..] + c;
      OksConcat(p, Allow(p, b, a[0]).bucket, a[1..], c);
    }
  }

  predicate Filled(p: Params, b: Bucket) { 0.0 <= b.tokens <= p.burst as real }

  lemma AllowFilled(p: Params, b: Bucket, t: real)
    requires Filled(p, b)
    ensures Filled(p, Allow(p, b, t).bucket)
  {
    hide Accrued;
  }

  lemma {:induction false} RunFilled(p: Params, b: Bucket, times: seq<real>)
    requires Filled(p, b)
    ensures Filled(p, BucketAfter(p, b, times))
    decreases |times|
  {
    if times != [] {
      AllowFilled(p, b, times[0]);
      RunFilled(p, Allow(p, b, times[0]).bucket, times[1..]);
    }
  }

  /** From a bucket at level L, requests admit at most L plus what comes in while the clock
      readings move forward. */
  lemma {:induction false} AdmittedFrom(p: Params, b: Bucket, times: seq<real>, t: real)
    requires p.limit.Every? && p.limit.rate >= 0.0 && Filled(p, b)
    ensures Trues(Oks(p, b, times)) as real
         <= Level(p.limit.rate, p.burst, b, t) + Accrued(p.limit.rate, Forward(t, times))
    decreases |times|
  {
    hide Accrued, Level;
    var rate := p.limit.rate;
    ForwardIs(t, times);
    AccruedNonNegative(rate, Forward(t, times));
    LevelMoves(rate, p.burst, b, t, t);
    if times != [] {
      var u := times[0];
      var d := Allow(p, b, u);
      AllowFilled(p, b, u);
      assert Oks(p, b, times)[1..] == Oks(p, d.bucket, times[1..]);
      AdmittedFrom(p, d.bucket, times[1..], u);
      LevelMoves(rate, p.burst, b, t, u);
      AccruedAdds(rate, Max(0.0, u - t), Forward(u, times[1..]));
      if d.ok { LevelAfter(rate, p.burst, b, u); }
    }
  }

  lemma LevelAfter(rate: real, burst: nat, b: Bucket, t: real)
    ensures var l := Level(rate, burst, b, t); Level(rate, burst, Bucket(l - 1.0, t), t) == l - 1.0
  {
    hide Accrued;
    AccruedNothing(rate);
  }

  lemma OksSlice(p: Params, b: Bucket, times: seq<real>, i: nat, j: nat)
    requires i <= j <= |times|
    ensures Oks(p, b, times)[i..j] == Oks(p, BucketAfter(p, b, times[..i]), times[i..j])
  {
    hide Oks, BucketAfter;
    assert times[..j] == times[..i] + times[i..j] && times == times[..j] + times[j..];
    OksConcat(p, b, times[..j], times[j..]);
    OksConcat(p, b, times[..i], times[i..j]);
  }

  /** Any consecutive requests whose clock readings span at most `span` admit at most
      burst + rate * span, plus rate times what the readings step back in between: a bucket
      that sees an earlier time counts the time since then again. */
  lemma WindowBound(p: Params, times: seq<real>, i: nat, j: nat, span: real)
    requires p.limit.Every? && p.limit.rate >= 0.0
    requires i < j <= |times| && times[j - 1] - times[i] <= span
    ensures Trues(Oks(p, Fresh(p), times)[i..j]) as real
         <= p.burst as real + Accrued(p.limit.rate, span + Backward(times[i..j]))
  {
    hide Oks, BucketAfter, Trues, Accrued, Forward, Backward, Level;
    var b, window := BucketAfter(p, Fresh(p), times[..i]), times[i..j];
    OksSlice(p, Fresh(p), times, i, j);
    RunFilled(p, Fresh(p), times[..i]);
    AdmittedFrom(p, b, window, times[i]);
    LevelMoves(p.limit.rate, p.burst, b, times[i], times[i]);
    ForwardIs(times[i], window);
    assert window[0] == times[i] && window[|window| - 1] == times[j - 1];
    AccruedGrows(p.limit.rate, Forward(times[i], window), span + Backward(window));
  }

  // Exactly who is admitted

  /** Clock readings that do not run backwards. */
  predicate InOrder(times: seq<real>) {
    (forall i :: 0 <= i < |times| ==> 0.0 <= times[i]) && forall i, j :: 0 <= i < j < |times| ==> times[i] <= times[j]
  }

  /** What the window from request `j` up to request `i` still has room for. */
  function Room(p: Params, times: seq<real>, oks: seq<bool>, i: nat, j: nat): real
    requires p.limit.Every? && j <= i < |times| && i <= |oks|
  {
    p.burst as real + Accrued(p.limit.rate, times[i] - times[j]) - Trues(oks[j..i]) as real
  }

  lemma LevelNext(p: Params, b: Bucket, t: real, u: real)
    requires p.limit.Every? && p.limit.rate >= 0.0 && b.last <= t <= u && Filled(p, b)
    ensures var rate, d := p.limit.rate, Allow(p, b, t);
            Level(rate, p.burst, d.bucket, u)
            == Min(Level(rate, p.burst, b, t) - (if d.ok then 1.0 else 0.0) + Accrued(rate, u - t), p.burst as real)
  {
    hide Accrued;
    AccruedAdds(p.limit.rate, u - t, t - b.last);
    AccruedNonNegative(p.limit.rate, u - t);
    assert u - b.last == (u - t) + (t - b.last);
  }

  lemma {:induction false} LastBefore(p: Params, times: seq<real>, i: nat)
    requires InOrder(times) && i < |times|
    ensures BucketAfter(p, Fresh(p), times[..i]).last <= times[i]
    ensures i > 0 ==> BucketAfter(p, Fresh(p), times[..i]).last <= times[i - 1]
  {
    if i > 0 {
      LastBefore(p, times, i - 1);
      AfterOne(p, times, i - 1);
      hide Level;
    }
  }

  /** Bucket and answer of request `i`. */
  lemma AfterOne(p: Params, times: seq<real>, i: nat)
    requires i < |times|
    ensures var b := BucketAfter(p, Fresh(p), times[..i]);
            && Oks(p, Fresh(p), times)[i] == Allow(p, b, times[i]).ok
            && BucketAfter(p, Fresh(p), times[..i + 1]) == Allow(p, b, times[i]).bucket
  {
    var b := BucketAfter(p, Fresh(p), times[..i]);
    assert times[..i + 1] == times[..i] + [times[i]];
    OksConcat(p, Fresh(p), times[..i], [times[i]]);
    assert [times[i]][1..] == [];
    assert Oks(p, b, [times[i]]) == [Allow(p, b, times[i]).ok];
    OksSlice(p, Fresh(p), times, i, i + 1);
    assert times[i..i + 1] == [times[i]];
    assert Oks(p, Fresh(p), times)[i..i + 1][0] == Oks(p, Fresh(p), times)[i];
  }

  lemma RoomNext(p: Params, times: seq<real>, oks: seq<bool>, i: nat, j: nat)
    requires p.limit.Every? && j <= i && i + 1 < |times| && i < |oks|
    ensures Room(p, times, oks, i + 1, j)
         == Room(p, times, oks, i, j) - (if oks[i] then 1.0 else 0.0) + Accrued(p.limit.rate, times[i + 1] - times[i])
  {
    hide Accrued;
    AccruedAdds(p.limit.rate, times[i + 1] - times[i], times[i] - times[j]);
    assert times[i + 1] - times[j] == (times[i + 1] - times[i]) + (times[i] - times[j]);
    assert oks[j..i + 1] == oks[j..i] + [oks[i]];
    TruesConcat(oks[j..i], [oks[i]]);
    assert [oks[i]][1..] == [];
  }

  lemma RoomAt(p: Params, times: seq<real>, oks: seq<bool>, i: nat)
    requires p.limit.Every? && i < |times| && i <= |oks|
    ensures Room(p, times, oks, i, i) == p.burst as real
  {
    hide Accrued;
    AccruedNothing(p.limit.rate);
    assert oks[i..i] == [];
  }

  /** The level a request meets is what the tightest window before it has room for. */
  lemma {:induction false} LevelIs(p: Params, times: seq<real>, i: nat) returns (j: nat)
    requires p.limit.Every? && p.limit.rate >= 0.0 && InOrder(times) && i < |times|
    ensures var oks := Oks(p, Fresh(p), times);
            var l := Level(p.limit.rate, p.burst, BucketAfter(p, Fresh(p), times[..i]), times[i]);
            j <= i && l == Room(p, times, oks, i, j) && forall k :: 0 <= k <= i ==> l <= Room(p, times, oks, i, k)
  {
    var oks := Oks(p, Fresh(p), times);
    RoomAt(p, times, oks, i);
    if i == 0 {
      hide Accrued;
      AccruedNonNegative(p.limit.rate, times[0]);
      assert times[..0] == [];
      j := 0;
    } else {
      var b := BucketAfter(p, Fresh(p), times[..i - 1]);
      var l := Level(p.limit.rate, p.burst, BucketAfter(p, Fresh(p), times[..i]), times[i]);
      var prev := LevelIs(p, times, i - 1);
      LastBefore(p, times, i - 1);
      AfterOne(p, times, i - 1);
      RunFilled(p, Fresh(p), times[..i - 1]);
      LevelNext(p, b, times[i - 1], times[i]);
      hide Level, Room, Oks, BucketAfter, Accrued, Allow;
      forall k | 0 <= k <= i ensures l <= Room(p, times, oks, i, k) {
        if k < i { RoomNext(p, times, oks, i - 1, k); }
      }
      RoomNext(p, times, oks, i - 1, prev);
      j := if l == p.burst as real then i else prev;
    }
  }

  /** Admitting request `i` keeps every window ending with it within burst + rate * time. */
  predicate Fits(times: seq<real>, oks: seq<bool>, burst: nat, rate: real, i: nat)
    requires i < |times| == |oks|
  {
    forall j :: 0 <= j <= i ==> Trues(oks[j..i]) as real + 1.0 <= burst as real + rate * (times[i] - times[j])
  }

  lemma RoomForOne(p: Params, times: seq<real>, oks: seq<bool>, i: nat, j: nat)
    requires p.limit.Every? && j <= i < |times| == |oks|
    ensures Room(p, times, oks, i, j) >= 1.0
            <==> Trues(oks[j..i]) as real + 1.0 <= p.burst as real + p.limit.rate * (times[i] - times[j])
  {
    hide Trues;
  }

  lemma FitsIff(p: Params, times: seq<real>, oks: seq<bool>, i: nat)
    requires p.limit.Every? && i < |times| == |oks|
    ensures Fits(times, oks, p.burst, p.limit.rate, i) <==> forall j :: 0 <= j <= i ==> Room(p, times, oks, i, j) >= 1.0
  {
    hide Trues, Room;
    forall j | 0 <= j <= i
      ensures Room(p, times, oks, i, j) >= 1.0
              <==> Trues(oks[j..i]) as real + 1.0 <= p.burst as real + p.limit.rate * (times[i] - times[j])
    {
      RoomForOne(p, times, oks, i, j);
    }
  }

  /** With clock readings in order, a request is admitted exactly when no window ending with
      it would then exceed burst + rate * time: nothing beyond the bound is let through, and
      nothing within it is refused, whatever was refused before. */
  lemma AdmittedIff(p: Params, times: seq<real>, i: nat)
    requires p.limit.Every? && p.limit.rate >= 0.0 && InOrder(times) && i < |times|
    ensures var oks := Oks(p, Fresh(p), times);
            oks[i] <==> Fits(times, oks, p.burst, p.limit.rate, i)
  {
    var oks := Oks(p, Fresh(p), times);
    var tightest := LevelIs(p, times, i);
    AfterOne(p, times, i);
    FitsIff(p, times, oks, i);
    hide Fits, Room, Oks, BucketAfter, Level, InOrder;
    assert oks[i] <==> Room(p, times, oks, i, tightest) >= 1.0;
  }

  // Exactly when the plain bound holds

  /** Requests `i` to `j` have clock readings within `span` from `lo` on, and step back by no
      more than `beta` in all. */
  predicate Window(times: seq<real>, i: nat, j: nat, lo: real, span: real, beta: real) {
    && i < j <= |times| && Backward(times[i..j]) <= beta
    && forall k :: i <= k < j ==> lo <= times[k] <= lo + span
  }

  /** At most burst + rate * span of them are admitted. */
  predicate PlainBound(p: Params, times: seq<real>, i: nat, j: nat, span: real) {
    i <= j <= |times| && p.limit.Every? &&
    Trues(Oks(p, Fresh(p), times)[i..j]) as real <= p.burst as real + Accrued(p.limit.rate, span)
  }

  /** With a burst of one, a reading before the last admitted one finds no token: once a
      bucket has been emptied, admissions are a full interval apart. */
  lemma {:induction false} EmptiedAdmits(p: Params, b: Bucket, times: seq<real>, hi: real)
    requires p.limit.Every? && p.limit.rate >= 0.0 && p.burst <= 1 && b.tokens == 0.0 && b.last <= hi
    requires forall k :: 0 <= k < |times| ==> times[k] <= hi
    ensures Trues(Oks(p, b, times)) as real <= Accrued(p.limit.rate, hi - b.last)
    decreases |times|
  {
    hide Accrued;
    AccruedNonNegative(p.limit.rate, hi - b.last);
    if times != [] {
      var u, d := times[0], Allow(p, b, times[0]);
      assert Oks(p, b, times)[1..] == Oks(p, d.bucket, times[1..]);
      EmptiedAdmits(p, d.bucket, times[1..], hi);
      if d.ok {
        AccruedAdds(p.limit.rate, u - b.last, hi - u);
        assert hi - b.last == (u - b.last) + (hi - u);
      }
    }
  }

  lemma {:induction false} SingleAdmits(p: Params, b: Bucket, times: seq<real>, lo: real, span: real)
    requires p.limit.Every? && p.limit.rate >= 0.0 && p.burst <= 1 && span >= 0.0
    requires forall k :: 0 <= k < |times| ==> lo <= times[k] <= lo + span
    ensures Trues(Oks(p, b, times)) as real <= p.burst as real + Accrued(p.limit.rate, span)
    decreases |times|
  {
    hide Accrued;
    AccruedNonNegative(p.limit.rate, span);
    if times != [] {
      var u, d := times[0], Allow(p, b, times[0]);
      assert Oks(p, b, times)[1..] == Oks(p, d.bucket, times[1..]);
      if d.ok {
        EmptiedAdmits(p, d.bucket, times[1..], lo + span);
        AccruedGrows(p.limit.rate, lo + span - u, span);
      } else {
        SingleAdmits(p, b, times[1..], lo, span);
      }
    }
  }

  function Zeros(k: nat): (times: seq<real>)
    ensures |times| == k && forall i :: 0 <= i < k ==> times[i] == 0.0
  {
    seq(k, _ => 0.0)
  }

  lemma {:induction false} ZerosAdmitted(p: Params, tokens: nat, k: nat)
    requires p.limit.Every? && k <= tokens <= p.burst
    ensures Trues(Oks(p, Bucket(tokens as real, 0.0), Zeros(k))) == k
    ensures BucketAfter(p, Bucket(tokens as real, 0.0), Zeros(k)) == Bucket((tokens - k) as real, 0.0)
    decreases k
  {
    hide Accrued;
    AccruedNothing(p.limit.rate);
    if k > 0 {
      var b := Bucket(tokens as real, 0.0);
      assert Zeros(k)[1..] == Zeros(k - 1);
      assert Allow(p, b, 0.0) == Decision(true, Bucket((tokens - 1) as real, 0.0));
      assert Oks(p, b, Zeros(k))[1..] == Oks(p, Bucket((tokens - 1) as real, 0.0), Zeros(k - 1));
      ZerosAdmitted(p, tokens - 1, k - 1);
    }
  }

  /** An interval on, a step back, and an interval on from there. */
  function Jump(u: real, b: real): seq<real> { [u, u - b, u + u - b] }

  lemma JumpAdmitted(p: Params, u: real, b: real)
    requires p.limit.Every? && p.limit.rate > 0.0 && p.burst >= 2 && Accrued(p.limit.rate, u) == 1.0 && 0.0 < b <= u
    ensures Oks(p, Bucket(1.0, 0.0), Jump(u, b)) == [true, true, true]
  {
    hide Accrued;
    assert Allow(p, Bucket(1.0, 0.0), u) == Decision(true, Bucket(1.0, u));
    assert Allow(p, Bucket(1.0, u), u - b) == Decision(true, Bucket(0.0, u - b));
    assert u + u - b - (u - b) == u;
    assert Allow(p, Bucket(0.0, u - b), u + u - b) == Decision(true, Bucket(0.0, u + u - b));
    var times := Jump(u, b);
    assert times[1..] == [u - b, u + u - b] && times[1..][1..] == [u + u - b];
    assert Oks(p, Bucket(0.0, u - b), [u + u - b]) == [true];
    assert Oks(p, Bucket(1.0, u), [u - b, u + u - b]) == [true, true];
  }

  lemma {:induction false} TruesConcat(a: seq<bool>, b: seq<bool>)
    ensures Trues(a + b) == Trues(a) + Trues(b)
  {
    if a == [] {
      assert a + b == b;
    } else {
      assert (a + b)[1..] == a[1..] + b;
      TruesConcat(a[1..], b);
    }
  }

  lemma {:induction false} BackwardConcat(k: nat, u: real, b: real)
    requires 0.0 <= b <= u
    ensures Backward(Zeros(k) + Jump(u, b)) == b
  {
    var times := Zeros(k) + Jump(u, b);
    if k == 0 {
      assert times == Jump(u, b) && times[1..] == [u - b, u + u - b];
      NoBackward([u - b, u + u - b]);
    } else {
      assert times[1..] == Zeros(k - 1) + Jump(u, b);
      BackwardConcat(k - 1, u, b);
    }
  }

  /** For every rate and every burst of at least two, and for a step back however small:
      burst + 2 requests are admitted within a time that accrues less than two tokens. The
      bucket counts the time since the earlier reading again. */
  lemma BackwardAdmitsMore(p: Params, u: real, b: real)
    requires p.limit.Every? && p.limit.rate > 0.0 && p.burst >= 2 && Accrued(p.limit.rate, u) == 1.0 && 0.0 < b <= u
    ensures var times, span := Zeros(p.burst - 1) + Jump(u, b), u + u - b;
            Window(times, 0, |times|, 0.0, span, b) && !PlainBound(p, times, 0, |times|, span)
  {
    hide Accrued, Oks, BucketAfter, Trues, Allow;
    var zeros, jump, span := Zeros(p.burst - 1), Jump(u, b), u + u - b;
    var times := zeros + jump;
    assert times[0..|times|] == times;
    BackwardConcat(p.burst - 1, u, b);
    OksConcat(p, Fresh(p), zeros, jump);
    ZerosAdmitted(p, p.burst, p.burst - 1);
    JumpAdmitted(p, u, b);
    TruesConcat(Oks(p, Fresh(p), zeros), [true, true, true]);
    assert Trues([true, true, true]) == 3 by { ThreeTrues(); }
    var oks := Oks(p, Fresh(p), times);
    assert oks[0..|times|] == oks;
    AccruedAdds(p.limit.rate, u, u - b);
    AccruedAdds(p.limit.rate, u - b, b);
    PositiveAccrual(p.limit.rate, b);
    assert span == u + (u - b) && u == (u - b) + b;
  }

  lemma ThreeTrues()
    ensures Trues([true, true, true]) == 3
  {
    assert [true, true, true][1..] == [true, true] && [true, true][1..] == [true];
  }

  lemma PositiveAccrual(rate: real, dt: real)
    requires rate > 0.0 && dt > 0.0
    ensures Accrued(rate, dt) > 0.0
  {}

  lemma IntervalOf(rate: real) returns (u: real)
    requires rate > 0.0
    ensures u > 0.0 && Accrued(rate, u) == 1.0
  {
    u := 1.0 / rate;
    assert u * rate == 1.0;
  }

  /** Any requests whose clock readings lie within `span` admit at most burst + rate * span,
      as long as the readings step back by at most `beta` in all, exactly when that means in
      order, or the burst is below two. */
  lemma PlainBoundIff(p: Params, beta: real)
    requires p.limit.Every? && p.limit.rate > 0.0 && beta >= 0.0
    ensures (forall times, i: nat, j: nat, lo, span ::
               Window(times, i, j, lo, span, beta) ==> PlainBound(p, times, i, j, span))
       <==> beta == 0.0 || p.burst < 2
  {
    hide Oks, Trues, Accrued, Backward;
    if beta == 0.0 || p.burst < 2 {
      forall times, i: nat, j: nat, lo, span | Window(times, i, j, lo, span, beta)
        ensures PlainBound(p, times, i, j, span)
      {
        if beta == 0.0 {
          WindowBound(p, times, i, j, span);
        } else {
          OksSlice(p, Fresh(p), times, i, j);
          assert lo <= times[i] <= lo + span;
          SingleAdmits(p, BucketAfter(p, Fresh(p), times[..i]), times[i..j], lo, span);
        }
      }
    } else {
      var u := IntervalOf(p.limit.rate);
      var b := Min(beta, u);
      BackwardAdmitsMore(p, u, b);
      var times, span := Zeros(p.burst - 1) + Jump(u, b), u + u - b;
      assert Window(times, 0, |times|, 0.0, span, beta) && !PlainBound(p, times, 0, |times|, span);
    }
  }
}
