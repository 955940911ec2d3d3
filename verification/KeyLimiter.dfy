/** The per-API-key limiter under concurrent callers: GetLimiter looks a key up under the
    read lock, and on a miss creates its limiter under the write lock after looking again. */
module KeyLimiter {
  import opened TokenBuckets

  type Key = nat
  type Thread = nat

  /** One hour in nanoseconds, the unit of time here. */
  const HOUR := 3_600_000_000_000

  /** A limit of zero or less stands for the default of 100 an hour. */
  function Effective(requestsPerHour: int): nat {
    if requestsPerHour <= 0 then 100 else requestsPerHour
  }

  /** rate.Every(time.Hour / n) with burst n; integer division, and a zero interval is no limit. */
  function KeyParams(n: nat): Params
    requires n > 0
  {
    var interval := HOUR / n;
    if interval == 0 then Params(Infinite, n) else Params(Every(1.0 / interval as real), n)
  }

  datatype Limiter = Limiter(n: nat, bucket: Bucket)

  datatype Pc =
    | Idle
    | Missed(key: Key, n: nat)      // not found under the read lock
    | Ready(key: Key, ref: nat)     // holding the limiter, about to ask it

  datatype Entry = Entry(key: Key, at: real, ok: bool)

  /** `limiters` maps a key to its limiter, an index into `pool`. */
  datatype State = State(limiters: map<Key, nat>, pool: seq<Limiter>, threads: map<Thread, Pc>, log: seq<Entry>)

  const START := State(map[], [], map[], [])

  datatype Step =
    | Lookup(t: Thread, key: Key, requestsPerHour: int)
    | Create(t: Thread)
    | Ask(t: Thread, at: real)

  function PcOf(s: State, t: Thread): Pc { if t in s.threads then s.threads[t] else Idle }

  function Goto(s: State, t: Thread, pc: Pc): State { s.(threads := s.threads[t := pc]) }

  function DoCreate(s: State, t: Thread, key: Key, n: nat): State
    requires n > 0
  {
    if key in s.limiters then Goto(s, t, Ready(key, s.limiters[key]))
    else
      var ref := |s.pool|;
      Goto(s.(limiters := s.limiters[key := ref], pool := s.pool + [Limiter(n, Fresh(KeyParams(n)))]), t,
           Ready(key, ref))
  }

  function DoAsk(s: State, t: Thread, key: Key, ref: nat, at: real): State {
    if ref >= |s.pool| || s.pool[ref].n == 0 then s
    else
      var d := Allow(KeyParams(s.pool[ref].n), s.pool[ref].bucket, at);
      Goto(s.(pool := s.pool[ref := s.pool[ref].(bucket := d.bucket)], log := s.log + [Entry(key, at, d.ok)]), t, Idle)
  }

  function Apply(s: State, step: Step): State {
    match step
    case Lookup(t, key, rph) =>
      if !PcOf(s, t).Idle? then s
      else if key in s.limiters then Goto(s, t, Ready(key, s.limiters[key]))
      else Goto(s, t, Missed(key, Effective(rph)))
    case Create(t) =>
      (match PcOf(s, t) case Missed(key, n) => if n > 0 then DoCreate(s, t, key, n) else s case _ => s)
    case Ask(t, at) =>
      (match PcOf(s, t) case Ready(key, ref) => DoAsk(s, t, key, ref, at) case _ => s)
  }

  function Run(s: State, steps: seq<Step>): State {
    if steps == [] then s else Apply(Run(s, steps[..|steps| - 1]), steps[|steps| - 1])
  }

  // What was asked and answered for one key

  function TimesOf(log: seq<Entry>, key: Key): seq<real> {
    if log == [] then []
    else
      var last := log[|log| - 1];
      TimesOf(log[..|log| - 1], key) + (if last.key == key then [last.at] else [])
  }

  function OksOf(log: seq<Entry>, key: Key): (oks: seq<bool>)
    ensures |oks| == |TimesOf(log, key)|
  {
    if log == [] then []
    else
      var last := log[|log| - 1];
      OksOf(log[..|log| - 1], key) + (if last.key == key then [last.ok] else [])
  }

  /** The key's limiter has answered every request for the key, and nothing else. */
  predicate Serves(s: State, key: Key) {
    if key !in s.limiters then TimesOf(s.log, key) == [] && OksOf(s.log, key) == []
    else
      var ref := s.limiters[key];
      ref < |s.pool| && s.pool[ref].n > 0 &&
      var p := KeyParams(s.pool[ref].n);
      var times := TimesOf(s.log, key);
      OksOf(s.log, key) == Oks(p, Fresh(p), times) && s.pool[ref].bucket == BucketAfter(p, Fresh(p), times)
  }

  predicate ThreadOk(s: State, pc: Pc) {
    match pc
    case Idle => true
    case Missed(_, n) => n > 0
    case Ready(key, ref) => key in s.limiters && s.limiters[key] == ref
  }

  ghost predicate Good(s: State) {
    && (forall k :: k in s.limiters ==> s.limiters[k] < |s.pool| && s.pool[s.limiters[k]].n > 0)
    && (forall j, k :: j in s.limiters && k in s.limiters && s.limiters[j] == s.limiters[k] ==> j == k)
    && (forall t :: t in s.threads ==> ThreadOk(s, s.threads[t]))
  }

  /** A limiter, once registered for a key, is never replaced. */
  predicate Keeps(s: State, s': State) {
    forall k :: k in s.limiters ==> k in s'.limiters && s'.limiters[k] == s.limiters[k]
                                    && (s.limiters[k] < |s.pool| ==>
                                        s.limiters[k] < |s'.pool|
                                            && s'.pool[s.limiters[k]].n == s.pool[s.limiters[k]].n)
  }

  lemma GotoGood(s: State, t: Thread, pc: Pc)
    requires Good(s) && ThreadOk(s, pc)
    ensures Good(Goto(s, t, pc)) && Keeps(s, Goto(s, t, pc))
  {}

  lemma RegisterGood(s: State, key: Key, lim: Limiter)
    requires Good(s) && lim.n > 0 && key !in s.limiters
    ensures var s' := s.(limiters := s.limiters[key := |s.pool|], pool := s.pool + [lim]);
            Good(s') && Keeps(s, s')
  {
    var s' := s.(limiters := s.limiters[key := |s.pool|], pool := s.pool + [lim]);
    forall j, k | j in s'.limiters && k in s'.limiters && s'.limiters[j] == s'.limiters[k] ensures j == k {
      if j != key && k != key { assert s.limiters[j] == s.limiters[k]; }
    }
    forall t | t in s'.threads ensures ThreadOk(s', s'.threads[t]) {
      assert ThreadOk(s, s.threads[t]);
    }
  }

  lemma CreateGood(s: State, t: Thread, key: Key, n: nat)
    requires Good(s) && n > 0 && key !in s.limiters
    ensures Good(DoCreate(s, t, key, n)) && Keeps(s, DoCreate(s, t, key, n))
  {
    hide Fresh, KeyParams, Good;
    var lim := Limiter(n, Fresh(KeyParams(n)));
    RegisterGood(s, key, lim);
    GotoGood(s.(limiters := s.limiters[key := |s.pool|], pool := s.pool + [lim]), t, Ready(key, |s.pool|));
  }

  lemma AskGood(s: State, t: Thread, key: Key, ref: nat, at: real)
    requires Good(s)
    ensures Good(DoAsk(s, t, key, ref, at)) && Keeps(s, DoAsk(s, t, key, ref, at))
  {
    hide Allow, KeyParams;
  }

  lemma StepGood(s: State, step: Step)
    requires Good(s)
    ensures Good(Apply(s, step)) && Keeps(s, Apply(s, step))
  {
    match step
    case Lookup(t, key, rph) =>
      GotoGood(s, t, if key in s.limiters then Ready(key, s.limiters[key]) else Missed(key, Effective(rph)));
    case Create(t) =>
      var pc := PcOf(s, t);
      if pc.Missed? && pc.n > 0 {
        if pc.key in s.limiters { GotoGood(s, t, Ready(pc.key, s.limiters[pc.key])); }
        else { CreateGood(s, t, pc.key, pc.n); }
      }
    case Ask(t, at) =>
      var pc := PcOf(s, t);
      if pc.Ready? { AskGood(s, t, pc.key, pc.ref, at); }
  }

  lemma LogSnoc(log: seq<Entry>, e: Entry, key: Key)
    ensures TimesOf(log + [e], key) == if e.key == key then TimesOf(log, key) + [e.at] else TimesOf(log, key)
    ensures OksOf(log + [e], key) == if e.key == key then OksOf(log, key) + [e.ok] else OksOf(log, key)
  {
    assert (log + [e])[..|log|] == log;
  }

  lemma AskServes(s: State, t: Thread, at: real, key: Key)
    requires Good(s) && Serves(s, key) && PcOf(s, t).Ready?
    ensures Serves(Apply(s, Ask(t, at)), key)
  {
    hide Allow, KeyParams, TimesOf, OksOf;
    var pc := PcOf(s, t);
    var lim := s.pool[pc.ref];
    var p := KeyParams(lim.n);
    var e := Entry(pc.key, at, Allow(p, lim.bucket, at).ok);
    LogSnoc(s.log, e, key);
    if pc.key == key {
      OksConcat(p, Fresh(p), TimesOf(s.log, key), [at]);
      assert [at][1..] == [];
    }
  }

  lemma StepServes(s: State, step: Step, key: Key)
    requires Good(s) && Serves(s, key)
    ensures Serves(Apply(s, step), key)
  {
    hide Allow, KeyParams, TimesOf, OksOf;
    if step.Ask? && PcOf(s, step.t).Ready? {
      AskServes(s, step.t, step.at, key);
    }
  }

  lemma {:induction false} RunServes(steps: seq<Step>, key: Key)
    ensures Good(Run(START, steps)) && Serves(Run(START, steps), key)
  {
    hide Apply, Serves;
    if steps == [] {
      StartServes(key);
    } else {
      var n := |steps| - 1;
      RunServes(steps[..n], key);
      StepGood(Run(START, steps[..n]), steps[n]);
      StepServes(Run(START, steps[..n]), steps[n], key);
    }
  }

  lemma StartServes(key: Key)
    ensures Serves(START, key)
  {}

  /** In every interleaving of callers a key gets one limiter, which is never replaced. */
  lemma {:induction false} OneLimiterPerKey(before: seq<Step>, steps: seq<Step>, key: Key)
    requires key in Run(START, before).limiters
    ensures var s, s' := Run(START, before), Run(START, before + steps);
            key in s'.limiters && s'.limiters[key] == s.limiters[key]
            && s.limiters[key] < |s.pool| && s.limiters[key] < |s'.pool|
            && s'.pool[s.limiters[key]].n == s.pool[s.limiters[key]].n
  {
    hide Apply;
    if steps == [] {
      assert before + steps == before;
      RunServes(before, key);
    } else {
      var n := |steps| - 1;
      OneLimiterPerKey(before, steps[..n], key);
      assert (before + steps)[..|before| + n] == before + steps[..n];
      RunServes(before + steps[..n], key);
      StepGood(Run(START, before + steps[..n]), steps[n]);
    }
  }

  /** The hourly limit the key's limiter was created with; 0 if the key has none. */
  function LimitOf(s: State, key: Key): nat {
    if key in s.limiters && s.limiters[key] < |s.pool| then s.pool[s.limiters[key]].n else 0
  }

  /** What a key's clients are granted, whatever the interleaving: among any consecutive
      requests of the key spanning at most `span` nanoseconds, at most n + span / interval
      are admitted, where n is the key's hourly limit and interval the hour divided by n,
      in whole nanoseconds; where concurrent callers bring their clock readings out of
      order, the total step back counts as further span. */
  lemma KeyWindow(steps: seq<Step>, key: Key, i: nat, j: nat, span: real)
    requires var s := Run(START, steps); var times := TimesOf(s.log, key);
             && 0 < LimitOf(s, key) <= HOUR
             && i < j <= |times| && times[j - 1] - times[i] <= span
    ensures var s := Run(START, steps); var n := LimitOf(s, key); var back := Backward(TimesOf(s.log, key)[i..j]);
            HOUR / n > 0 && Trues(OksOf(s.log, key)[i..j]) as real <= n as real + (span + back) / (HOUR / n) as real
  {
    hide Run, TimesOf, OksOf, Trues, Backward;
    var s := Run(START, steps);
    RunServes(steps, key);
    var n := LimitOf(s, key);
    IntervalPositive(n);
    WindowBound(KeyParams(n), TimesOf(s.log, key), i, j, span);
    RateTimes(HOUR / n, span + Backward(TimesOf(s.log, key)[i..j]));
  }

  /** So with readings in order, at most n + span / interval. */
  lemma KeyWindowInOrder(steps: seq<Step>, key: Key, i: nat, j: nat, span: real)
    requires var s := Run(START, steps); var times := TimesOf(s.log, key);
             && 0 < LimitOf(s, key) <= HOUR && i < j <= |times| && times[j - 1] - times[i] <= span
             && forall a, b :: i <= a < b < j ==> times[a] <= times[b]
    ensures var s := Run(START, steps); var n := LimitOf(s, key);
            HOUR / n > 0 && Trues(OksOf(s.log, key)[i..j]) as real <= n as real + span / (HOUR / n) as real
  {
    hide Run, TimesOf, OksOf, Trues, Backward;
    KeyWindow(steps, key, i, j, span);
    var times := TimesOf(Run(START, steps).log, key);
    assert forall a, b :: 0 <= a < b < |times[i..j]| ==>
             times[i..j][a] == times[i + a] && times[i..j][b] == times[i + b];
    NoBackward(times[i..j]);
  }

  /** Admitting request `i` keeps every window ending with it within n + span / interval. */
  predicate FitsHourly(times: seq<real>, oks: seq<bool>, n: nat, i: nat)
    requires i < |times| == |oks| && n > 0 && HOUR / n > 0
  {
    forall j :: 0 <= j <= i ==>
      Trues(oks[j..i]) as real + 1.0 <= n as real + (times[i] - times[j]) / (HOUR / n) as real
  }

  /** And with readings in order, a request of the key is admitted exactly when it does. */
  lemma KeyAdmittedIff(steps: seq<Step>, key: Key, i: nat)
    requires var s := Run(START, steps); var times := TimesOf(s.log, key);
             0 < LimitOf(s, key) <= HOUR && InOrder(times) && i < |times|
    ensures var s := Run(START, steps); var n := LimitOf(s, key);
            var times, oks := TimesOf(s.log, key), OksOf(s.log, key);
            HOUR / n > 0 && (oks[i] <==> FitsHourly(times, oks, n, i))
  {
    hide Run, TimesOf, OksOf, Fits, FitsHourly, InOrder;
    var s := Run(START, steps);
    RunServes(steps, key);
    var n, times := LimitOf(s, key), TimesOf(s.log, key);
    IntervalPositive(n);
    AdmittedIff(KeyParams(n), times, i);
    HourlyIs(times, OksOf(s.log, key), n, i);
  }

  lemma HourlyIs(times: seq<real>, oks: seq<bool>, n: nat, i: nat)
    requires i < |times| == |oks| && n > 0 && HOUR / n > 0
    ensures Fits(times, oks, n, 1.0 / (HOUR / n) as real, i) <==> FitsHourly(times, oks, n, i)
  {
    hide Trues;
    var interval := HOUR / n;
    forall j | 0 <= j <= i
      ensures 1.0 / interval as real * (times[i] - times[j]) == (times[i] - times[j]) / interval as real
    {
      RateTimes(interval, times[i] - times[j]);
    }
  }

  /** The limit a key's limiter was made with is the one a request for that key asked for,
      100 an hour in place of a limit that is not positive. */
  lemma {:induction false} LimitAsked(steps: seq<Step>, key: Key) returns (m: nat)
    requires key in Run(START, steps).limiters
    ensures m < |steps| && steps[m].Lookup? && steps[m].key == key
    ensures LimitOf(Run(START, steps), key) == if steps[m].requestsPerHour <= 0 then 100 else steps[m].requestsPerHour
  {
    hide Apply;
    var n := |steps| - 1;
    var before := Run(START, steps[..n]);
    RunServes(steps[..n], key);
    StepGood(before, steps[n]);
    if key in before.limiters {
      m := LimitAsked(steps[..n], key);
    } else {
      RegisteredBy(before, steps[n], key);
      m := MissAsked(steps[..n], steps[n].t);
    }
  }

  /** A key is first registered by a caller that missed it, with that caller's limit. */
  lemma RegisteredBy(s: State, step: Step, key: Key)
    requires Good(s) && key !in s.limiters && key in Apply(s, step).limiters
    ensures step.Create? && PcOf(s, step.t).Missed? && PcOf(s, step.t).key == key
    ensures LimitOf(Apply(s, step), key) == PcOf(s, step.t).n
  {
    hide Allow, KeyParams;
  }

  lemma {:induction false} MissAsked(steps: seq<Step>, t: Thread) returns (m: nat)
    requires PcOf(Run(START, steps), t).Missed?
    ensures var pc := PcOf(Run(START, steps), t);
            && m < |steps| && steps[m].Lookup? && steps[m].key == pc.key
            && pc.n == if steps[m].requestsPerHour <= 0 then 100 else steps[m].requestsPerHour
  {
    hide Apply;
    var n := |steps| - 1;
    var before := Run(START, steps[..n]);
    MissStep(before, steps[n], t);
    if PcOf(before, t) == PcOf(Run(START, steps), t) {
      m := MissAsked(steps[..n], t);
    } else {
      m := n;
    }
  }

  lemma MissStep(s: State, step: Step, t: Thread)
    requires PcOf(Apply(s, step), t).Missed?
    ensures var pc := PcOf(Apply(s, step), t);
            PcOf(s, t) == pc || (step.Lookup? && step.key == pc.key
                                 && pc.n == if step.requestsPerHour <= 0 then 100 else step.requestsPerHour)
  {
    hide Allow, KeyParams;
  }

  lemma IntervalPositive(n: nat)
    requires 0 < n <= HOUR
    ensures HOUR / n > 0
  {}

  lemma RateTimes(interval: nat, span: real)
    requires interval > 0
    ensures Accrued(1.0 / interval as real, span) == span / interval as real
  {}

  /** Beyond one request per nanosecond the interval rounds to zero and nothing is ever refused. */
  lemma {:induction false} NoLimitAboveNanos(n: nat, b: Bucket, times: seq<real>)
    requires n > HOUR
    ensures forall i :: 0 <= i < |times| ==> Oks(KeyParams(n), b, times)[i]
    decreases |times|
  {
    assert HOUR / n == 0;
    if times != [] { NoLimitAboveNanos(n, b, times[1..]); }
  }
}
