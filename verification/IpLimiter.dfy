/** The per-IP limiter: visitors spread over shards and dropped when idle, against one
    token bucket per IP that is kept for ever. */
module IpLimiter {
  import opened TokenBuckets

  /** A client address, as the bytes of its text. */
  type Ip = seq<bv8>

  datatype Config = Config(rps: real, burst: nat, idle: real)

  /** NewRateLimiter's clamping of out-of-range settings; `idle` in seconds. */
  function NewConfig(rps: real, burst: int, idle: real): (c: Config)
    ensures c.rps == rps && c.burst >= 1 && c.idle > 0.0
    ensures if burst >= 1 then c.burst == burst else c.burst == 10
    ensures if idle > 0.0 then c.idle == idle else c.idle == 600.0
  {
    Config(rps, if burst < 1 then 10 else burst, if idle <= 0.0 then 600.0 else idle)
  }

  type Settings = c: Config | c.burst >= 1 && c.idle > 0.0 witness Config(5.0, 10, 600.0)

  function ParamsOf(c: Settings): Params { Params(Every(c.rps), c.burst) }

  datatype Visitor = Visitor(bucket: Bucket, lastSeen: real)

  type Table = map<Ip, Visitor>

  /** get + Allow at one instant. */
  function Visit(c: Settings, table: Table, ip: Ip, now: real): (bool, Table) {
    var bucket := if ip in table then table[ip].bucket else Fresh(ParamsOf(c));
    var d := Allow(ParamsOf(c), bucket, now);
    (d.ok, table[ip := Visitor(d.bucket, now)])
  }

  // The shards

  const SHARDS := 32

  /** One round of 32-bit FNV-1a: xor the byte in, multiply by the prime. */
  function Mix(h: bv32, byte: bv8): bv32 { (h ^ (byte as bv32)) * 16777619 }

  function Fnv(ip: Ip): bv32 {
    if ip == [] then 2166136261 else Mix(Fnv(ip[..|ip| - 1]), ip[|ip| - 1])
  }

  /** A published FNV-1a value: that of the text "a". */
  lemma FnvOfA()
    ensures Fnv([97]) == 0xe40c292c
  {
    assert [97 as bv8][..0] == [];
    assert Fnv([]) == 2166136261;
  }

  /** The low five bits select the shard. */
  function Masked(h: bv32): (i: nat)
    ensures i < SHARDS
  {
    assert h & 31 < 32;
    (h & 31) as nat
  }

  function ShardOf(ip: Ip): (i: nat)
    ensures i < SHARDS
  {
    Masked(Fnv(ip))
  }

  // Eviction

  /** Idle at a pass of the reaper that began at `began`, when it fixes its cutoff. */
  predicate Idle(c: Settings, v: Visitor, began: real) { v.lastSeen < began - c.idle }

  /** The reaper at one shard, under that shard's lock. */
  function EvictShard(c: Settings, table: Table, shard: nat, began: real): Table {
    map ip | ip in table && !(ShardOf(ip) == shard && Idle(c, table[ip], began)) :: table[ip]
  }

  /** A whole pass with nothing in between. */
  function Evict(c: Settings, table: Table, began: real): Table {
    map ip | ip in table && !Idle(c, table[ip], began) :: table[ip]
  }

  // The reference: nothing is ever evicted

  type Reference = map<Ip, Bucket>

  function RefVisit(c: Settings, ref: Reference, ip: Ip, now: real): (bool, Reference) {
    var d := Allow(ParamsOf(c), if ip in ref then ref[ip] else Fresh(ParamsOf(c)), now);
    (d.ok, ref[ip := d.bucket])
  }

  /** A request, or the reaper at one shard in a pass that began at `began`. Requests, also
      to the same shard, may come between the shards of a pass. */
  datatype Event = Request(ip: Ip, at: real) | Sweep(shard: nat, began: real, at: real)

  /** The decisions of the middleware. A rate of zero or less switches it off. */
  function Decisions(c: Settings, table: Table, events: seq<Event>): seq<bool>
    decreases |events|
  {
    if events == [] then []
    else match events[0]
      case Sweep(shard, began, _) => Decisions(c, EvictShard(c, table, shard, began), events[1..])
      case Request(ip, at) =>
        if c.rps <= 0.0 then [true] + Decisions(c, table, events[1..])
        else [Visit(c, table, ip, at).0] + Decisions(c, Visit(c, table, ip, at).1, events[1..])
  }

  function RefDecisions(c: Settings, ref: Reference, events: seq<Event>): seq<bool>
    decreases |events|
  {
    if events == [] then []
    else match events[0]
      case Sweep(_, _, _) => RefDecisions(c, ref, events[1..])
      case Request(ip, at) =>
        if c.rps <= 0.0 then [true] + RefDecisions(c, ref, events[1..])
        else [RefVisit(c, ref, ip, at).0] + RefDecisions(c, RefVisit(c, ref, ip, at).1, events[1..])
  }

  /** Time does not run backwards, and a pass begins before it reaches a shard. */
  predicate Timely(events: seq<Event>, now: real) {
    && (forall i :: 0 <= i < |events| ==> now <= events[i].at && (events[i].Sweep? ==> events[i].began <= events[i].at))
    && forall i, j :: 0 <= i < j < |events| ==> events[i].at <= events[j].at
  }

  // Eviction is invisible when a bucket refills within the idle time

  predicate Refilled(c: Settings, b: Bucket, now: real) {
    b.last <= now && b.tokens + Accrued(c.rps, now - b.last) >= c.burst as real
  }

  ghost predicate Agree(c: Settings, table: Table, ref: Reference, now: real) {
    && (forall ip :: ip in ref ==> Sane(ParamsOf(c), ref[ip]) && ref[ip].last <= now)
    && (forall ip :: ip in table ==> ip in ref && table[ip].bucket == ref[ip]
                                     && ref[ip].last <= table[ip].lastSeen <= now)
    && (forall ip :: ip in ref && ip !in table ==> Refilled(c, ref[ip], now))
  }

  /** A full bucket answers like a new one. */
  lemma FullIsFresh(c: Settings, b: Bucket, now: real)
    requires c.rps > 0.0 && 0.0 <= now && (Refilled(c, b, now) || b == Fresh(ParamsOf(c)))
    ensures Allow(ParamsOf(c), b, now) == Decision(true, Bucket(c.burst as real - 1.0, now))
  {
    hide Accrued;
    AccruedNonNegative(c.rps, now);
  }

  lemma StaysRefilled(c: Settings, b: Bucket, now: real, later: real)
    requires c.rps > 0.0 && Refilled(c, b, now) && now <= later
    ensures Refilled(c, b, later)
  {
    hide Accrued;
    AccruedGrows(c.rps, now - b.last, later - b.last);
  }

  lemma VisitAgrees(c: Settings, table: Table, ref: Reference, now: real, ip: Ip, at: real)
    requires c.rps > 0.0 && Agree(c, table, ref, now) && 0.0 <= now <= at
    ensures Visit(c, table, ip, at).0 == RefVisit(c, ref, ip, at).0
    ensures Agree(c, Visit(c, table, ip, at).1, RefVisit(c, ref, ip, at).1, at)
  {
    hide Accrued, Level;
    var mine := if ip in table then table[ip].bucket else Fresh(ParamsOf(c));
    var theirs := if ip in ref then ref[ip] else Fresh(ParamsOf(c));
    forall i | i in ref && i !in table ensures Refilled(c, ref[i], at) { StaysRefilled(c, ref[i], now, at); }
    if ip !in table {
      FullIsFresh(c, mine, at);
      FullIsFresh(c, theirs, at);
    }
    assert Allow(ParamsOf(c), mine, at) == Allow(ParamsOf(c), theirs, at);
    AllowSane(ParamsOf(c), theirs, at);
  }

  lemma EvictAgrees(c: Settings, table: Table, ref: Reference, now: real, shard: nat, began: real, at: real)
    requires c.rps > 0.0 && Accrued(c.rps, c.idle) >= c.burst as real
    requires Agree(c, table, ref, now) && 0.0 <= now <= at && began <= at
    ensures Agree(c, EvictShard(c, table, shard, began), ref, at)
  {
    hide Accrued, ShardOf;
    forall ip | ip in ref && ip !in EvictShard(c, table, shard, began) ensures Refilled(c, ref[ip], at) {
      if ip in table {
        AccruedGrows(c.rps, c.idle, at - ref[ip].last);
      } else {
        StaysRefilled(c, ref[ip], now, at);
      }
    }
  }

  lemma {:induction false} SameDecisions(c: Settings, table: Table, ref: Reference, now: real, events: seq<Event>)
    requires c.rps > 0.0 && Accrued(c.rps, c.idle) >= c.burst as real
    requires Agree(c, table, ref, now) && 0.0 <= now && Timely(events, now)
    ensures Decisions(c, table, events) == RefDecisions(c, ref, events)
    decreases |events|
  {
    hide Agree, Accrued, Visit, RefVisit, EvictShard;
    if events != [] {
      var rest, at := events[1..], events[0].at;
      match events[0]
      case Sweep(shard, began, _) =>
        EvictAgrees(c, table, ref, now, shard, began, at);
        SameDecisions(c, EvictShard(c, table, shard, began), ref, at, rest);
      case Request(ip, _) =>
        VisitAgrees(c, table, ref, now, ip, at);
        SameDecisions(c, Visit(c, table, ip, at).1, RefVisit(c, ref, ip, at).1, at, rest);
    }
  }

  lemma {:induction false} DisabledSame(c: Settings, table: Table, ref: Reference, events: seq<Event>)
    requires c.rps <= 0.0
    ensures Decisions(c, table, events) == RefDecisions(c, ref, events)
    decreases |events|
  {
    hide EvictShard;
    if events != [] {
      match events[0]
      case Sweep(shard, began, _) => DisabledSame(c, EvictShard(c, table, shard, began), ref, events[1..]);
      case Request(_, _) => DisabledSame(c, table, ref, events[1..]);
    }
  }

  // ... and only then

  /** `k` requests of one IP at one instant. */
  function Hits(ip: Ip, at: real, k: nat): seq<Event> {
    if k == 0 then [] else [Request(ip, at)] + Hits(ip, at, k - 1)
  }

  function Yes(k: nat): seq<bool> { if k == 0 then [] else [true] + Yes(k - 1) }

  function BucketOf(c: Settings, table: Table, ip: Ip): Bucket {
    if ip in table then table[ip].bucket else Fresh(ParamsOf(c))
  }

  function RefBucketOf(c: Settings, ref: Reference, ip: Ip): Bucket {
    if ip in ref then ref[ip] else Fresh(ParamsOf(c))
  }

  lemma VisitAdmits(c: Settings, table: Table, ip: Ip, at: real)
    requires Level(c.rps, c.burst, BucketOf(c, table, ip), at) >= 1.0
    ensures var l := Level(c.rps, c.burst, BucketOf(c, table, ip), at);
            Visit(c, table, ip, at) == (true, table[ip := Visitor(Bucket(l - 1.0, at), at)])
  {
    hide Level;
  }

  lemma DecisionsFirst(c: Settings, table: Table, ip: Ip, at: real, rest: seq<Event>)
    requires c.rps > 0.0
    ensures Decisions(c, table, [Request(ip, at)] + rest)
         == [Visit(c, table, ip, at).0] + Decisions(c, Visit(c, table, ip, at).1, rest)
  {
    assert ([Request(ip, at)] + rest)[1..] == rest;
  }

  lemma RefDecisionsFirst(c: Settings, ref: Reference, ip: Ip, at: real, rest: seq<Event>)
    requires c.rps > 0.0
    ensures RefDecisions(c, ref, [Request(ip, at)] + rest)
         == [RefVisit(c, ref, ip, at).0] + RefDecisions(c, RefVisit(c, ref, ip, at).1, rest)
  {
    assert ([Request(ip, at)] + rest)[1..] == rest;
  }

  lemma HitsFirst(ip: Ip, at: real, k: nat, rest: seq<Event>)
    requires k > 0
    ensures Hits(ip, at, k) + rest == [Request(ip, at)] + (Hits(ip, at, k - 1) + rest)
  {}

  lemma YesFirst(k: nat, rest: seq<bool>)
    requires k > 0
    ensures Yes(k) + rest == [true] + (Yes(k - 1) + rest)
  {}

  function Drained(table: Table, ip: Ip, l: real, k: nat, at: real): Table {
    if k == 0 then table else table[ip := Visitor(Bucket(l - k as real, at), at)]
  }

  lemma DrainedAgain(table: Table, ip: Ip, l: real, k: nat, at: real)
    requires k > 0
    ensures Drained(Drained(table, ip, l, 1, at), ip, l - 1.0, k - 1, at) == Drained(table, ip, l, k, at)
  {
    assert l - 1.0 - (k - 1) as real == l - k as real;
  }

  lemma {:induction false} HitsAdmitted(c: Settings, table: Table, ip: Ip, at: real, k: nat, l: real, rest: seq<Event>)
    requires c.rps > 0.0 && l == Level(c.rps, c.burst, BucketOf(c, table, ip), at) && l >= k as real
    ensures Decisions(c, table, Hits(ip, at, k) + rest) == Yes(k) + Decisions(c, Drained(table, ip, l, k, at), rest)
    decreases k
  {
    hide Level, Visit, Decisions;
    if k == 0 {
      assert Hits(ip, at, k) + rest == rest;
    } else {
      var next := Drained(table, ip, l, 1, at);
      HitsFirst(ip, at, k, rest);
      DecisionsFirst(c, table, ip, at, Hits(ip, at, k - 1) + rest);
      VisitAdmits(c, table, ip, at);
      LevelAfter(c.rps, c.burst, BucketOf(c, table, ip), at);
      hide Hits, Yes;
      HitsAdmitted(c, next, ip, at, k - 1, l - 1.0, rest);
      DrainedAgain(table, ip, l, k, at);
      YesFirst(k, Decisions(c, Drained(table, ip, l, k, at), rest));
    }
  }

  lemma RefVisitAdmits(c: Settings, ref: Reference, ip: Ip, at: real)
    requires c.rps > 0.0
    ensures var l := Level(c.rps, c.burst, RefBucketOf(c, ref, ip), at);
            if l >= 1.0 then RefVisit(c, ref, ip, at) == (true, ref[ip := Bucket(l - 1.0, at)])
            else !RefVisit(c, ref, ip, at).0
  {
    hide Level;
  }

  function RefDrained(ref: Reference, ip: Ip, l: real, k: nat, at: real): Reference {
    if k == 0 then ref else ref[ip := Bucket(l - k as real, at)]
  }

  lemma RefDrainedAgain(ref: Reference, ip: Ip, l: real, k: nat, at: real)
    requires k > 0
    ensures RefDrained(RefDrained(ref, ip, l, 1, at), ip, l - 1.0, k - 1, at) == RefDrained(ref, ip, l, k, at)
  {
    assert l - 1.0 - (k - 1) as real == l - k as real;
  }

  lemma {:induction false} RefHitsAdmitted(c: Settings, ref: Reference, ip: Ip, at: real, k: nat, l: real,
                                           rest: seq<Event>)
    requires c.rps > 0.0 && l == Level(c.rps, c.burst, RefBucketOf(c, ref, ip), at) && l >= k as real
    ensures RefDecisions(c, ref, Hits(ip, at, k) + rest)
         == Yes(k) + RefDecisions(c, RefDrained(ref, ip, l, k, at), rest)
    decreases k
  {
    hide Level, RefVisit, RefDecisions;
    if k == 0 {
      assert Hits(ip, at, k) + rest == rest;
    } else {
      var next := RefDrained(ref, ip, l, 1, at);
      HitsFirst(ip, at, k, rest);
      RefDecisionsFirst(c, ref, ip, at, Hits(ip, at, k - 1) + rest);
      RefVisitAdmits(c, ref, ip, at);
      LevelAfter(c.rps, c.burst, RefBucketOf(c, ref, ip), at);
      hide Hits, Yes;
      RefHitsAdmitted(c, next, ip, at, k - 1, l - 1.0, rest);
      RefDrainedAgain(ref, ip, l, k, at);
      YesFirst(k, RefDecisions(c, RefDrained(ref, ip, l, k, at), rest));
    }
  }

  /** More requests at one instant than the level are not all admitted. */
  lemma {:induction false} RefHitsRefused(c: Settings, ref: Reference, ip: Ip, at: real, k: nat, l: real)
    requires c.rps > 0.0 && l == Level(c.rps, c.burst, RefBucketOf(c, ref, ip), at) && 0.0 <= l < k as real
    ensures RefDecisions(c, ref, Hits(ip, at, k)) != Yes(k)
    decreases k
  {
    hide Level, RefVisit, RefDecisions;
    RefDecisionsFirst(c, ref, ip, at, Hits(ip, at, k - 1));
    RefVisitAdmits(c, ref, ip, at);
    var mine := RefDecisions(c, ref, Hits(ip, at, k));
    if l >= 1.0 {
      LevelAfter(c.rps, c.burst, RefBucketOf(c, ref, ip), at);
      RefHitsRefused(c, RefVisit(c, ref, ip, at).1, ip, at, k - 1, l - 1.0);
      assert Yes(k)[1..] == Yes(k - 1) && mine[1..] == RefDecisions(c, RefVisit(c, ref, ip, at).1, Hits(ip, at, k - 1));
    } else {
      assert !mine[0] && Yes(k)[0];
    }
  }

  /** A little longer than the idle time is still too short to refill. */
  lemma Slack(c: Settings) returns (d: real)
    requires c.rps > 0.0 && Accrued(c.rps, c.idle) < c.burst as real
    ensures 0.0 < d <= c.idle && Accrued(c.rps, c.idle + d) < c.burst as real
  {
    var gap := c.burst as real - c.rps * c.idle;
    var q := gap / (2.0 * c.rps);
    assert q * (2.0 * c.rps) == gap;
    assert q > 0.0;
    d := Min(c.idle, q);
    AccruedGrows(c.rps, c.idle + d, c.idle + q);
    assert c.rps * (c.idle + q) == c.rps * c.idle + gap / 2.0;
  }

  const SOMEONE: Ip := [49]

  /** The reaper's next pass but one, at the shard of that client. */
  function Pass(c: Settings): Event { Sweep(ShardOf(SOMEONE), 2.0 * c.idle, 2.0 * c.idle) }

  /** A full burst just before a pass, the eviction one pass later, and a burst again. */
  function Story(c: Settings, d: real): seq<Event> {
    Hits(SOMEONE, c.idle - d, c.burst) + ([Pass(c)] + Hits(SOMEONE, 2.0 * c.idle, c.burst))
  }

  lemma {:induction false} HitsTimed(ip: Ip, at: real, k: nat)
    ensures |Hits(ip, at, k)| == k && forall i :: 0 <= i < k ==> Hits(ip, at, k)[i] == Request(ip, at)
  {
    if k > 0 { HitsTimed(ip, at, k - 1); }
  }

  lemma StoryTimely(c: Settings, d: real)
    requires 0.0 < d <= c.idle
    ensures Timely(Story(c, d), 0.0)
  {
    hide ShardOf;
    HitsTimed(SOMEONE, c.idle - d, c.burst);
    HitsTimed(SOMEONE, 2.0 * c.idle, c.burst);
  }

  lemma FreshLevel(c: Settings, at: real)
    requires c.rps > 0.0 && 0.0 <= at
    ensures Level(c.rps, c.burst, Fresh(ParamsOf(c)), at) == c.burst as real
  {
    hide Accrued;
    AccruedNonNegative(c.rps, at);
  }

  lemma StoryEvicting(c: Settings, d: real)
    requires c.rps > 0.0 && 0.0 < d <= c.idle
    ensures Decisions(c, map[], Story(c, d)) == Yes(c.burst) + Yes(c.burst)
  {
    hide Level, ShardOf;
    var t1, t2, k := c.idle - d, 2.0 * c.idle, c.burst;
    var tail := [Pass(c)] + Hits(SOMEONE, t2, k);
    FreshLevel(c, t1);
    FreshLevel(c, t2);
    HitsAdmitted(c, map[], SOMEONE, t1, k, k as real, tail);
    var drained: Table := map[SOMEONE := Visitor(Bucket(0.0, t1), t1)];
    assert Decisions(c, map[], Story(c, d)) == Yes(k) + Decisions(c, drained, tail);
    assert tail[1..] == Hits(SOMEONE, t2, k) + [];
    assert EvictShard(c, drained, ShardOf(SOMEONE), t2) == map[];
    HitsAdmitted(c, map[], SOMEONE, t2, k, k as real, []);
    assert Decisions(c, map[], Hits(SOMEONE, t2, k) + []) == Yes(k) + [];
  }

  lemma StoryReference(c: Settings, d: real)
    requires c.rps > 0.0 && 0.0 < d <= c.idle && Accrued(c.rps, c.idle + d) < c.burst as real
    ensures RefDecisions(c, map[], Story(c, d)) != Yes(c.burst) + Yes(c.burst)
  {
    hide ShardOf;
    var t1, t2, k := c.idle - d, 2.0 * c.idle, c.burst;
    var tail := [Pass(c)] + Hits(SOMEONE, t2, k);
    var drained: Reference := map[SOMEONE := Bucket(0.0, t1)];
    assert RefDecisions(c, map[], Story(c, d)) == Yes(k) + RefDecisions(c, drained, tail) by {
      hide Level;
      FreshLevel(c, t1);
      RefHitsAdmitted(c, map[], SOMEONE, t1, k, k as real, tail);
    }
    assert tail[1..] == Hits(SOMEONE, t2, k);
    hide Accrued;
    AccruedNonNegative(c.rps, c.idle + d);
    assert t2 - t1 == c.idle + d;
    RefHitsRefused(c, drained, SOMEONE, t2, k, Accrued(c.rps, c.idle + d));
    assert (Yes(k) + RefDecisions(c, drained, tail))[|Yes(k)|..] == RefDecisions(c, drained, tail);
    assert (Yes(k) + Yes(k))[|Yes(k)|..] == Yes(k);
  }

  lemma Invisible(c: Settings, events: seq<Event>)
    requires c.rps <= 0.0 || Accrued(c.rps, c.idle) >= c.burst as real
    requires Timely(events, 0.0)
    ensures Decisions(c, map[], events) == RefDecisions(c, map[], events)
  {
    hide Decisions, RefDecisions;
    if c.rps <= 0.0 { DisabledSame(c, map[], map[], events); }
    else { SameDecisions(c, map[], map[], 0.0, events); }
  }

  lemma Visible(c: Settings) returns (events: seq<Event>)
    requires c.rps > 0.0 && Accrued(c.rps, c.idle) < c.burst as real
    ensures Timely(events, 0.0) && Decisions(c, map[], events) != RefDecisions(c, map[], events)
  {
    hide Decisions, RefDecisions, Story, Timely, Accrued;
    var d := Slack(c);
    StoryTimely(c, d);
    StoryEvicting(c, d);
    StoryReference(c, d);
    events := Story(c, d);
  }

  /** The sharded, evicting limiter decides like one bucket per IP kept for ever, on every
      sequence of requests and shards being swept, exactly when the limiter is off or a
      drained bucket refills within the idle time: rps * idle >= burst. */
  lemma EvictionInvisibleIff(c: Settings)
    ensures (forall events :: Timely(events, 0.0) ==> Decisions(c, map[], events) == RefDecisions(c, map[], events))
       <==> c.rps <= 0.0 || c.rps * c.idle >= c.burst as real
  {
    assert Accrued(c.rps, c.idle) == c.rps * c.idle;
    hide Decisions, RefDecisions, Timely;
    if c.rps <= 0.0 || Accrued(c.rps, c.idle) >= c.burst as real {
      forall events | Timely(events, 0.0) ensures Decisions(c, map[], events) == RefDecisions(c, map[], events) {
        Invisible(c, events);
      }
    } else {
      var events := Visible(c);
    }
  }

  // Exactly who is admitted

  /** The times of one client's requests, and the answers to them. */
  function TimesOf(events: seq<Event>, ip: Ip): seq<real> {
    if events == [] then []
    else (if events[0].Request? && events[0].ip == ip then [events[0].at] else []) + TimesOf(events[1..], ip)
  }

  function AnswersTo(events: seq<Event>, decisions: seq<bool>, ip: Ip): seq<bool> {
    if events == [] || decisions == [] then []
    else if events[0].Sweep? then AnswersTo(events[1..], decisions, ip)
    else (if events[0].ip == ip then [decisions[0]] else []) + AnswersTo(events[1..], decisions[1..], ip)
  }

  /** Each client is answered by a bucket of its own. */
  lemma {:induction false} OwnBucket(c: Settings, ref: Reference, events: seq<Event>, ip: Ip)
    requires c.rps > 0.0
    ensures AnswersTo(events, RefDecisions(c, ref, events), ip)
         == Oks(ParamsOf(c), RefBucketOf(c, ref, ip), TimesOf(events, ip))
    decreases |events|
  {
    hide Allow, ParamsOf, Fresh;
    if events != [] {
      var e, rest := events[0], events[1..];
      if e.Sweep? {
        OwnBucket(c, ref, rest, ip);
        assert TimesOf(events, ip) == TimesOf(rest, ip);
      } else {
        var next := RefVisit(c, ref, e.ip, e.at).1;
        OwnBucket(c, next, rest, ip);
        var decisions := RefDecisions(c, ref, events);
        assert decisions[1..] == RefDecisions(c, next, rest);
        if e.ip == ip {
          assert TimesOf(events, ip)[1..] == TimesOf(rest, ip);
        } else {
          assert TimesOf(events, ip) == TimesOf(rest, ip);
          assert AnswersTo(events, decisions, ip) == AnswersTo(rest, decisions[1..], ip);
        }
      }
    }
  }

  lemma {:induction false} TimesInOrder(events: seq<Event>, ip: Ip, now: real)
    requires Timely(events, now) && 0.0 <= now
    ensures InOrder(TimesOf(events, ip)) && forall i :: 0 <= i < |TimesOf(events, ip)| ==> now <= TimesOf(events, ip)[i]
    decreases |events|
  {
    if events != [] {
      TimesInOrder(events[1..], ip, events[0].at);
    }
  }

  /** Of every client, whatever the others do, whichever shards are swept and however often
      the client was refused before: a request is admitted exactly when it keeps every window
      ending with it within burst + rps * time. */
  lemma ClientAdmittedIff(c: Settings, events: seq<Event>, ip: Ip, i: nat)
    requires c.rps > 0.0 && c.rps * c.idle >= c.burst as real && Timely(events, 0.0) && i < |TimesOf(events, ip)|
    ensures var times, oks := TimesOf(events, ip), AnswersTo(events, Decisions(c, map[], events), ip);
            |oks| == |times| && (oks[i] <==> Fits(times, oks, c.burst, c.rps, i))
  {
    assert Accrued(c.rps, c.idle) == c.rps * c.idle;
    hide Decisions, RefDecisions, AnswersTo, TimesOf, Timely, Fits, InOrder, Oks;
    Invisible(c, events);
    OwnBucket(c, map[], events, ip);
    TimesInOrder(events, ip, 0.0);
    AdmittedIff(ParamsOf(c), TimesOf(events, ip), i);
  }

  class RateLimiter {
    const settings: Settings
    const shards: array<Table>
    ghost var table: Table

    /** Each visitor lives in its own shard and nowhere else. */
    ghost predicate Valid()
      reads this, shards
    {
      && shards.Length == SHARDS
      && (forall ip :: ip in table <==> ip in shards[ShardOf(ip)])
      && (forall ip :: ip in table ==> shards[ShardOf(ip)][ip] == table[ip])
      && (forall i, ip :: 0 <= i < SHARDS && ip in shards[i] ==> i == ShardOf(ip))
    }

    constructor (rps: real, burst: int, idle: real)
      ensures Valid() && fresh(shards) && table == map[]
      ensures settings == NewConfig(rps, burst, idle)
    {
      settings := NewConfig(rps, burst, idle);
      shards := new Table[SHARDS](_ => map[]);
      table := map[];
    }

    method ShardFor(ip: Ip) returns (i: nat)
      ensures i == ShardOf(ip)
    {
      hide Mix, Masked;
      var h: bv32 := 2166136261;
      for k := 0 to |ip|
        invariant h == Fnv(ip[..k])
      {
        assert ip[..k + 1][..k] == ip[..k];
        h := Mix(h, ip[k]);
      }
      assert ip[..|ip|] == ip;
      i := Masked(h);
    }

    /** One request: get and Allow at the same instant. */
    method Request(ip: Ip, now: real) returns (ok: bool)
      requires Valid()
      modifies this, shards
      ensures Valid()
      ensures settings.rps <= 0.0 ==> ok && table == old(table)
      ensures settings.rps > 0.0 ==> (ok, table) == Visit(settings, old(table), ip, now) && table[ip].lastSeen == now
      ensures forall j :: j != ip ==> (j in table <==> j in old(table)) && (j in table ==> table[j] == old(table)[j])
    {
      hide ShardOf, Allow, Fresh;
      if settings.rps <= 0.0 {
        return true;
      }
      var s := ShardFor(ip);
      var visitors := shards[s];
      var bucket := if ip in visitors then visitors[ip].bucket else Fresh(ParamsOf(settings));
      var d := Allow(ParamsOf(settings), bucket, now);
      var seen := Visitor(d.bucket, now);
      shards[s] := visitors[ip := seen];
      table := table[ip := seen];
      ok := d.ok;
    }

    /** The reaper at one shard. */
    method ReapShard(i: nat, began: real)
      requires Valid() && i < SHARDS
      modifies this, shards
      ensures Valid()
      ensures table == EvictShard(settings, old(table), i, began)
      ensures forall ip :: ip in table <==>
                ip in old(table) && (ShardOf(ip) == i ==> began <= old(table)[ip].lastSeen + settings.idle)
    {
      hide ShardOf;
      var visitors := shards[i];
      shards[i] := map ip | ip in visitors && !Idle(settings, visitors[ip], began) :: visitors[ip];
      table := EvictShard(settings, table, i, began);
    }

    /** A pass over all shards, with nothing in between, drops exactly the idle visitors. */
    method Reap(now: real)
      requires Valid()
      modifies this, shards
      ensures Valid()
      ensures table == Evict(settings, old(table), now)
      ensures forall ip :: ip in table <==> ip in old(table) && now <= old(table)[ip].lastSeen + settings.idle
    {
      hide ShardOf;
      for i := 0 to SHARDS
        invariant Valid()
        invariant table == map ip | ip in old(table) && !(ShardOf(ip) < i && Idle(settings, old(table)[ip], now))
                                  :: old(table)[ip]
      {
        ReapShard(i, now);
      }
    }
  }
}
