/** The TTL cache in front of API-key validation. A miss reads the database and stores the
    row as two separate moments, with other requests, database changes and invalidations
    free to come in between. */
module KeyCache {
  import opened Text

  type Key = nat
  type Thread = nat

  /** A database row: models.APIKey as far as validity goes. */
  datatype Row = Row(active: bool, expires: Option<real>)

  /** IsValid at `now`: active and not past its expiry. */
  predicate IsValid(row: Row, now: real) {
    row.active && (row.expires.Some? ==> now <= row.expires.value)
  }

  /** A cache entry; `read` and `stored` number the moments its row was read and stored. */
  datatype Cached = Cached(row: Row, expiresAt: real, read: nat, stored: nat)

  datatype Pc =
    | Idle
    | Missed(key: Key)                              // nothing fresh in the cache
    | Fetched(key: Key, row: Row, read: nat)        // row read, not yet stored

  /** A request let through at moment `when`. */
  datatype Grant = Grant(key: Key, row: Row, read: nat, stored: nat, when: nat)

  datatype State = State(db: map<Key, Row>, cache: map<Key, Cached>, threads: map<Thread, Pc>, grants: seq<Grant>)

  const START := State(map[], map[], map[], [])

  /** Moments, each at a time `at`. */
  datatype Event =
    | Change(key: Key, row: Option<Row>, at: real)   // any write to the database
    | Invalidate(key: Key, at: real)                 // InvalidateAPIKeyCache
    | Lookup(t: Thread, key: Key, at: real)          // a request consults the cache
    | Fetch(t: Thread, at: real)                     // ... reads the database
    | Store(t: Thread, at: real)                     // ... stores the row and checks it

  function PcOf(s: State, t: Thread): Pc { if t in s.threads then s.threads[t] else Idle }

  function Goto(s: State, t: Thread, pc: Pc): State { s.(threads := s.threads[t := pc]) }

  /** The IsValid check of APIKeyAuth. */
  function Judge(s: State, g: Grant, at: real): State {
    if IsValid(g.row, at) then s.(grants := s.grants + [g]) else s
  }

  /** The cache half of validateAPIKeyCached; a TTL of zero or less disables the cache. */
  function DoLookup(ttl: real, s: State, n: nat, t: Thread, key: Key, at: real): State {
    if !PcOf(s, t).Idle? then s
    else if ttl > 0.0 && key in s.cache then
      var c := s.cache[key];
      if at < c.expiresAt then Judge(s, Grant(key, c.row, c.read, c.stored, n), at)
      else Goto(s.(cache := s.cache - {key}), t, Missed(key))
    else Goto(s, t, Missed(key))
  }

  /** ValidateAPIKey: a key without a row is an error, and errors are not cached. */
  function DoFetch(s: State, n: nat, t: Thread): State {
    match PcOf(s, t)
    case Missed(key) => if key in s.db then Goto(s, t, Fetched(key, s.db[key], n)) else Goto(s, t, Idle)
    case _ => s
  }

  function DoStore(ttl: real, s: State, n: nat, t: Thread, at: real): State {
    match PcOf(s, t)
    case Fetched(key, row, read) =>
      var kept := if ttl > 0.0 then s.(cache := s.cache[key := Cached(row, at + ttl, read, n)]) else s;
      Judge(Goto(kept, t, Idle), Grant(key, row, read, n, n), at)
    case _ => s
  }

  /** Moment `n`. */
  function Apply(ttl: real, s: State, n: nat, e: Event): State {
    match e
    case Change(key, row, _) => s.(db := if row.Some? then s.db[key := row.value] else s.db - {key})
    case Invalidate(key, _) => s.(cache := s.cache - {key})
    case Lookup(t, key, at) => DoLookup(ttl, s, n, t, key, at)
    case Fetch(t, _) => DoFetch(s, n, t)
    case Store(t, at) => DoStore(ttl, s, n, t, at)
  }

  function Run(ttl: real, events: seq<Event>): State {
    if events == [] then START
    else Apply(ttl, Run(ttl, events[..|events| - 1]), |events| - 1, events[|events| - 1])
  }

  // Bounded staleness

  /** Moment `read` was a database read that saw `row` for `key`. */
  predicate ReadFrom(ttl: real, events: seq<Event>, key: Key, row: Row, read: nat) {
    read < |events| && events[read].Fetch? &&
    var db := Run(ttl, events[..read]).db;
    key in db && db[key] == row
  }

  predicate Uninvalidated(events: seq<Event>, key: Key, from: nat, to: nat) {
    forall i :: from < i < to && i < |events| ==> !(events[i].Invalidate? && events[i].key == key)
  }

  predicate ThreadOk(ttl: real, events: seq<Event>, pc: Pc) {
    pc.Fetched? ==> ReadFrom(ttl, events, pc.key, pc.row, pc.read)
  }

  predicate CacheOk(ttl: real, events: seq<Event>, key: Key, c: Cached) {
    && ReadFrom(ttl, events, key, c.row, c.read) && c.read < c.stored < |events| && ttl > 0.0
    && c.expiresAt == events[c.stored].at + ttl
    && Uninvalidated(events, key, c.stored, |events|)
  }

  /** The grant rests on a row that was in the database when read, is valid at the moment
      of the grant, and was stored less than a TTL before it with no invalidation since,
      or was stored at that very moment. */
  predicate GrantOk(ttl: real, events: seq<Event>, g: Grant) {
    && g.read < g.stored <= g.when < |events|
    && ReadFrom(ttl, events, g.key, g.row, g.read)
    && IsValid(g.row, events[g.when].at)
    && (g.stored < g.when ==> ttl > 0.0 && events[g.when].at < events[g.stored].at + ttl)
    && Uninvalidated(events, g.key, g.stored, g.when)
  }

  ghost predicate Sound(ttl: real, events: seq<Event>) {
    var s := Run(ttl, events);
    && (forall t :: t in s.threads ==> ThreadOk(ttl, events, s.threads[t]))
    && (forall k :: k in s.cache ==> CacheOk(ttl, events, k, s.cache[k]))
    && (forall i :: 0 <= i < |s.grants| ==> GrantOk(ttl, events, s.grants[i]))
  }

  lemma ReadFromExtends(ttl: real, events: seq<Event>, e: Event, key: Key, row: Row, read: nat)
    requires ReadFrom(ttl, events, key, row, read)
    ensures ReadFrom(ttl, events + [e], key, row, read)
  {
    hide Run;
    assert (events + [e])[..read] == events[..read];
  }

  lemma GrantExtends(ttl: real, events: seq<Event>, e: Event, g: Grant)
    requires GrantOk(ttl, events, g)
    ensures GrantOk(ttl, events + [e], g)
  {
    hide Run;
    ReadFromExtends(ttl, events, e, g.key, g.row, g.read);
  }

  lemma CacheExtends(ttl: real, events: seq<Event>, e: Event, key: Key, c: Cached)
    requires CacheOk(ttl, events, key, c) && !(e.Invalidate? && e.key == key)
    ensures CacheOk(ttl, events + [e], key, c)
  {
    hide Run;
    ReadFromExtends(ttl, events, e, key, c.row, c.read);
  }

  /** A fresh hit is a sound grant. */
  lemma HitOk(ttl: real, events: seq<Event>, e: Event, key: Key, c: Cached)
    requires CacheOk(ttl, events, key, c) && e.at < c.expiresAt && IsValid(c.row, e.at)
    ensures GrantOk(ttl, events + [e], Grant(key, c.row, c.read, c.stored, |events|))
  {
    hide Run;
    ReadFromExtends(ttl, events, e, key, c.row, c.read);
  }

  lemma StepSound(ttl: real, events: seq<Event>, e: Event)
    requires Sound(ttl, events)
    ensures Sound(ttl, events + [e])
  {
    var n, s := |events|, Run(ttl, events);
    var all := events + [e];
    assert all[..n] == events;
    var s' := Apply(ttl, s, n, e);
    assert Run(ttl, all) == s';
    hide Run, CacheOk, GrantOk, ReadFrom;
    forall t | t in s'.threads ensures ThreadOk(ttl, all, s'.threads[t]) {
      ThreadStep(ttl, events, e, t);
    }
    forall k | k in s'.cache ensures CacheOk(ttl, all, k, s'.cache[k]) {
      CacheStep(ttl, events, e, k);
    }
    forall i | 0 <= i < |s'.grants| ensures GrantOk(ttl, all, s'.grants[i]) {
      GrantStep(ttl, events, e, i);
    }
  }

  lemma ThreadStep(ttl: real, events: seq<Event>, e: Event, t: Thread)
    requires Sound(ttl, events) && t in Apply(ttl, Run(ttl, events), |events|, e).threads
    ensures ThreadOk(ttl, events + [e], Apply(ttl, Run(ttl, events), |events|, e).threads[t])
  {
    hide Run, CacheOk, GrantOk, IsValid;
    var s := Run(ttl, events);
    var pc := Apply(ttl, s, |events|, e).threads[t];
    if pc.Fetched? {
      if t in s.threads && pc == s.threads[t] {
        ReadFromExtends(ttl, events, e, pc.key, pc.row, pc.read);
      } else {
        assert (events + [e])[..|events|] == events;
      }
    }
  }

  lemma CacheStep(ttl: real, events: seq<Event>, e: Event, k: Key)
    requires Sound(ttl, events) && k in Apply(ttl, Run(ttl, events), |events|, e).cache
    ensures CacheOk(ttl, events + [e], k, Apply(ttl, Run(ttl, events), |events|, e).cache[k])
  {
    hide Run, GrantOk, CacheOk, ReadFrom, IsValid;
    var s := Run(ttl, events);
    var c := Apply(ttl, s, |events|, e).cache[k];
    if k in s.cache && c == s.cache[k] && !(e.Invalidate? && e.key == k) {
      CacheExtends(ttl, events, e, k, c);
    } else {
      StoreOk(ttl, events, e, PcOf(s, e.t));
    }
  }

  /** A row just read and stored makes a sound entry. */
  lemma StoreOk(ttl: real, events: seq<Event>, e: Event, pc: Pc)
    requires ttl > 0.0 && pc.Fetched? && ThreadOk(ttl, events, pc)
    ensures CacheOk(ttl, events + [e], pc.key, Cached(pc.row, e.at + ttl, pc.read, |events|))
  {
    hide Run;
    ReadFromExtends(ttl, events, e, pc.key, pc.row, pc.read);
  }

  lemma GrantStep(ttl: real, events: seq<Event>, e: Event, i: nat)
    requires Sound(ttl, events) && i < |Apply(ttl, Run(ttl, events), |events|, e).grants|
    ensures GrantOk(ttl, events + [e], Apply(ttl, Run(ttl, events), |events|, e).grants[i])
  {
    hide Run;
    var s := Run(ttl, events);
    if i < |s.grants| {
      GrantExtends(ttl, events, e, s.grants[i]);
    } else if e.Lookup? {
      HitOk(ttl, events, e, e.key, s.cache[e.key]);
    } else {
      var pc := PcOf(s, e.t);
      ReadFromExtends(ttl, events, e, pc.key, pc.row, pc.read);
    }
  }

  lemma {:induction false} RunSound(ttl: real, events: seq<Event>)
    ensures Sound(ttl, events)
  {
    if events != [] {
      var n := |events| - 1;
      RunSound(ttl, events[..n]);
      StepSound(ttl, events[..n], events[n]);
      assert events[..n] + [events[n]] == events;
    }
  }

  /** Bounded staleness, in every interleaving: each request let through relied on a row the
      database held at some earlier read, active and unexpired by that row when let through;
      and if every read is stored within `delay`, that read was less than TTL + delay
      earlier (at most `delay` with the cache off). */
  lemma BoundedStaleness(ttl: real, events: seq<Event>, i: nat, delay: real)
    requires i < |Run(ttl, events).grants|
    requires var g := Run(ttl, events).grants[i];
             g.read < g.stored < |events| && events[g.stored].at - events[g.read].at <= delay
    ensures var g := Run(ttl, events).grants[i];
            && g.when < |events| && ReadFrom(ttl, events, g.key, g.row, g.read)
            && g.row.active && (g.row.expires.Some? ==> events[g.when].at <= g.row.expires.value)
            && (if g.stored == g.when then events[g.when].at - events[g.read].at <= delay
                else ttl > 0.0 && events[g.when].at - events[g.read].at < ttl + delay)
  {
    hide Run;
    RunSound(ttl, events);
    assert GrantOk(ttl, events, Run(ttl, events).grants[i]);
  }

  // Invalidation

  /** No request between reading the row of `key` and storing it holds one still valid at `at`. */
  predicate NoneInFlight(s: State, key: Key, at: real) {
    forall t :: t in s.threads ==>
      var pc := s.threads[t]; !(pc.Fetched? && pc.key == key && IsValid(pc.row, at))
  }

  /** A row read after moment `j`, or no longer valid at `at`. */
  predicate Harmless(row: Row, read: nat, j: nat, at: real) { read > j || !IsValid(row, at) }

  /** Whatever concerns `key` from now on was read after moment `j`, or is of no use. */
  ghost predicate AllReadAfter(s: State, key: Key, j: nat, at: real, grantsBefore: nat) {
    && (forall t :: t in s.threads && s.threads[t].Fetched? && s.threads[t].key == key ==>
          Harmless(s.threads[t].row, s.threads[t].read, j, at))
    && (key in s.cache ==> Harmless(s.cache[key].row, s.cache[key].read, j, at))
    && (forall i :: grantsBefore <= i < |s.grants| && s.grants[i].key == key ==> s.grants[i].read > j)
  }

  lemma InvalidStays(row: Row, at: real, later: real)
    requires !IsValid(row, at) && at <= later
    ensures !IsValid(row, later)
  {}

  lemma JudgeReadAfter(s: State, g: Grant, key: Key, j: nat, at: real, now: real, grantsBefore: nat)
    requires AllReadAfter(s, key, j, at, grantsBefore) && at <= now
    requires g.key == key ==> Harmless(g.row, g.read, j, at)
    ensures AllReadAfter(Judge(s, g, now), key, j, at, grantsBefore) && |s.grants| <= |Judge(s, g, now).grants|
  {
    hide IsValid;
    if !IsValid(g.row, at) { InvalidStays(g.row, at, now); }
  }

  lemma LookupReadAfter(ttl: real, s: State, n: nat, e: Event, key: Key, j: nat, at: real, grantsBefore: nat)
    requires e.Lookup? && AllReadAfter(s, key, j, at, grantsBefore) && at <= e.at
    ensures AllReadAfter(Apply(ttl, s, n, e), key, j, at, grantsBefore) && |s.grants| <= |Apply(ttl, s, n, e).grants|
  {
    hide Judge, Harmless;
    if e.key in s.cache {
      var c := s.cache[e.key];
      JudgeReadAfter(s, Grant(e.key, c.row, c.read, c.stored, n), key, j, at, e.at, grantsBefore);
    }
  }

  lemma StoreReadAfter(ttl: real, s: State, n: nat, e: Event, key: Key, j: nat, at: real, grantsBefore: nat)
    requires e.Store? && AllReadAfter(s, key, j, at, grantsBefore) && at <= e.at
    ensures AllReadAfter(Apply(ttl, s, n, e), key, j, at, grantsBefore) && |s.grants| <= |Apply(ttl, s, n, e).grants|
  {
    hide Judge, Harmless;
    var pc := PcOf(s, e.t);
    if pc.Fetched? {
      var kept := if ttl > 0.0 then s.(cache := s.cache[pc.key := Cached(pc.row, e.at + ttl, pc.read, n)]) else s;
      JudgeReadAfter(Goto(kept, e.t, Idle), Grant(pc.key, pc.row, pc.read, n, n), key, j, at, e.at, grantsBefore);
    }
  }

  lemma StepReadAfter(ttl: real, s: State, n: nat, e: Event, key: Key, j: nat, at: real, grantsBefore: nat)
    requires AllReadAfter(s, key, j, at, grantsBefore) && n > j && at <= e.at
    ensures AllReadAfter(Apply(ttl, s, n, e), key, j, at, grantsBefore) && |s.grants| <= |Apply(ttl, s, n, e).grants|
  {
    if e.Lookup? { LookupReadAfter(ttl, s, n, e, key, j, at, grantsBefore); }
    else if e.Store? { StoreReadAfter(ttl, s, n, e, key, j, at, grantsBefore); }
    else { hide IsValid, DoLookup, DoStore; }
  }

  /** `events` ends with InvalidateAPIKeyCache for `key`. */
  predicate JustInvalidated(events: seq<Event>, key: Key) {
    events != [] && events[|events| - 1].Invalidate? && events[|events| - 1].key == key
  }

  function Now(events: seq<Event>): real
    requires events != []
  {
    events[|events| - 1].at
  }

  predicate NotBefore(events: seq<Event>, at: real) { forall i :: 0 <= i < |events| ==> at <= events[i].at }

  lemma {:induction false} ReadAfter(ttl: real, events: seq<Event>, more: seq<Event>, key: Key)
    requires JustInvalidated(events, key) && NotBefore(more, Now(events))
             && NoneInFlight(Run(ttl, events), key, Now(events))
    ensures AllReadAfter(Run(ttl, events + more), key, |events| - 1, Now(events), |Run(ttl, events).grants|)
    ensures |Run(ttl, events).grants| <= |Run(ttl, events + more).grants|
    decreases |more|
  {
    hide AllReadAfter, Apply, IsValid;
    if more == [] {
      assert events + more == events;
      AtInvalidation(ttl, events, key);
    } else {
      var n := |more| - 1;
      assert (events + more)[..|events| + n] == events + more[..n];
      ReadAfter(ttl, events, more[..n], key);
      StepReadAfter(ttl, Run(ttl, events + more[..n]), |events| + n, more[n], key, |events| - 1, Now(events),
                    |Run(ttl, events).grants|);
    }
  }

  lemma AtInvalidation(ttl: real, events: seq<Event>, key: Key)
    requires JustInvalidated(events, key) && NoneInFlight(Run(ttl, events), key, Now(events))
    ensures AllReadAfter(Run(ttl, events), key, |events| - 1, Now(events), |Run(ttl, events).grants|)
  {
    hide IsValid;
  }

  /** After InvalidateAPIKeyCache, with no still valid row of the key in flight, every
      request let through relies on a row read after the invalidation. */
  lemma InvalidationTakesEffect(ttl: real, events: seq<Event>, more: seq<Event>, key: Key, i: nat)
    requires JustInvalidated(events, key) && NotBefore(more, Now(events))
             && NoneInFlight(Run(ttl, events), key, Now(events))
    requires |Run(ttl, events).grants| <= i < |Run(ttl, events + more).grants|
             && Run(ttl, events + more).grants[i].key == key
    ensures Run(ttl, events + more).grants[i].read >= |events|
  {
    ReadAfter(ttl, events, more, key);
  }

  /** Of the requests that start after `events` and are served from the cache, none relies
      on a row of `key` read before. */
  ghost predicate HitsAreNew(ttl: real, events: seq<Event>, more: seq<Event>, key: Key) {
    var s := Run(ttl, events + more);
    forall i ::
      |Run(ttl, events).grants| <= i < |s.grants| && s.grants[i].key == key && s.grants[i].stored < s.grants[i].when
      ==> s.grants[i].read >= |events|
  }

  ghost predicate Effective(ttl: real, events: seq<Event>, key: Key)
    requires events != []
  {
    forall more :: NotBefore(more, Now(events)) ==> HitsAreNew(ttl, events, more, key)
  }

  /** With a read in flight the row read before the invalidation is stored after it, and a
      new request is let through on it. */
  lemma Overtaken(ttl: real, s: State, n: nat, t: Thread, at: real)
    requires ttl > 0.0 && PcOf(s, t).Fetched? && IsValid(PcOf(s, t).row, at)
    ensures var pc := PcOf(s, t);
            var after := Apply(ttl, Apply(ttl, s, n, Store(t, at)), n + 1, Lookup(t, pc.key, at));
            after.grants == s.grants + [Grant(pc.key, pc.row, pc.read, n, n), Grant(pc.key, pc.row, pc.read, n, n + 1)]
  {
    hide IsValid;
  }

  lemma NotEffective(ttl: real, events: seq<Event>, key: Key, t: Thread)
    requires ttl > 0.0 && JustInvalidated(events, key)
    requires var pc := PcOf(Run(ttl, events), t); pc.Fetched? && pc.key == key && IsValid(pc.row, Now(events))
    ensures !Effective(ttl, events, key)
  {
    var s, at := Run(ttl, events), Now(events);
    var more := [Store(t, at), Lookup(t, key, at)];
    var all := events + more;
    RunSound(ttl, events);
    assert ThreadOk(ttl, events, PcOf(s, t));
    assert all[..|events| + 1] == events + [Store(t, at)] && all[..|events| + 1][..|events|] == events;
    Overtaken(ttl, s, |events|, t, at);
    assert Run(ttl, all[..|events| + 1]) == Apply(ttl, s, |events|, Store(t, at));
    assert Run(ttl, all).grants[|s.grants| + 1] == Grant(key, PcOf(s, t).row, PcOf(s, t).read, |events|, |events| + 1);
    hide Run, IsValid, Sound;
    assert !HitsAreNew(ttl, events, more, key);
    assert NotBefore(more, at);
  }

  /** An invalidation takes effect for every later request, whatever else happens, exactly
      when no request holds a still valid row of the key that it has read and not stored. */
  lemma InvalidationIff(ttl: real, events: seq<Event>, key: Key)
    requires ttl > 0.0 && JustInvalidated(events, key)
    ensures Effective(ttl, events, key) <==> NoneInFlight(Run(ttl, events), key, Now(events))
  {
    hide Run, IsValid;
    if NoneInFlight(Run(ttl, events), key, Now(events)) {
      forall more | NotBefore(more, Now(events)) ensures HitsAreNew(ttl, events, more, key) {
        ReadAfter(ttl, events, more, key);
      }
    } else {
      var t :| t in Run(ttl, events).threads && Run(ttl, events).threads[t].Fetched?
               && Run(ttl, events).threads[t].key == key && IsValid(Run(ttl, events).threads[t].row, Now(events));
      NotEffective(ttl, events, key, t);
    }
  }

  lemma RunNext(ttl: real, events: seq<Event>, n: nat)
    requires n < |events|
    ensures Run(ttl, events[..n + 1]) == Apply(ttl, Run(ttl, events[..n]), n, events[n])
  {
    hide Apply;
    assert events[..n + 1][..n] == events[..n];
  }

  /** A request reads the row of a key; the key is revoked and its cache entry invalidated;
      the request stores the row it has read. */
  function Revocation(key: Key, at: real): seq<Event> {
    [Change(key, Some(Row(true, None)), at), Lookup(0, key, at), Fetch(0, at),
     Change(key, Some(Row(false, None)), at), Invalidate(key, at), Store(0, at), Lookup(1, key, at)]
  }

  /** The run is one in which the invalidation does not take effect: the next request is let
      through on the active row, though the database holds the revoked one. */
  lemma RevokedKeyServed(ttl: real, key: Key, at: real)
    requires ttl > 0.0
    ensures var s, row := Run(ttl, Revocation(key, at)), Row(true, None);
            && s.db == map[key := Row(false, None)]
            && s.grants == [Grant(key, row, 2, 5, 5), Grant(key, row, 2, 5, 6)]
  {
    var events, row := Revocation(key, at), Row(true, None);
    var dead := Row(false, None);
    RevocationReads(ttl, key, at);
    RunNext(ttl, events, 4);
    RunNext(ttl, events, 5);
    RunNext(ttl, events, 6);
    assert events[..7] == events;
    hide Run;
    assert Run(ttl, events[..5]) == State(map[key := dead], map[], map[0 := Fetched(key, row, 2)], []);
    assert Run(ttl, events[..6]) ==
           State(map[key := dead], map[key := Cached(row, at + ttl, 2, 5)], map[0 := Idle], [Grant(key, row, 2, 5, 5)]);
  }

  lemma RevocationReads(ttl: real, key: Key, at: real)
    requires ttl > 0.0
    ensures Run(ttl, Revocation(key, at)[..4]) ==
            State(map[key := Row(false, None)], map[], map[0 := Fetched(key, Row(true, None), 2)], [])
  {
    var events, row := Revocation(key, at), Row(true, None);
    assert events[..0] == [] && Run(ttl, events[..0]) == START;
    RunNext(ttl, events, 0);
    RunNext(ttl, events, 1);
    RunNext(ttl, events, 2);
    RunNext(ttl, events, 3);
    hide Run;
    assert Run(ttl, events[..1]) == State(map[key := row], map[], map[], []);
    assert Run(ttl, events[..2]) == State(map[key := row], map[], map[0 := Missed(key)], []);
    assert Run(ttl, events[..3]) == State(map[key := row], map[], map[0 := Fetched(key, row, 2)], []);
  }

  // What a valid key gets

  /** One request from beginning to end, at `at`, with nothing in between. */
  function Serve(ttl: real, s: State, n: nat, t: Thread, key: Key, at: real): State {
    Apply(ttl, Apply(ttl, Apply(ttl, s, n, Lookup(t, key, at)), n + 1, Fetch(t, at)), n + 2, Store(t, at))
  }

  /** A cache entry answers until its time is up; a TTL of zero or less switches the cache off. */
  predicate Fresh(ttl: real, s: State, key: Key, at: real) {
    ttl > 0.0 && key in s.cache && at < s.cache[key].expiresAt
  }

  /** The row the request has to go by: the cached one while fresh, else the database's. */
  function Consulted(ttl: real, s: State, key: Key, at: real): Option<Row> {
    if Fresh(ttl, s, key, at) then Some(s.cache[key].row) else if key in s.db then Some(s.db[key]) else None
  }

  /** That row says active, and not expired at `at`. */
  predicate Admissible(row: Option<Row>, at: real) {
    row.Some? && row.value.active && (row.value.expires == None || row.value.expires.value >= at)
  }

  /** A request is let through exactly when the row it has to go by admits it: once, on that
      row. Past the TTL, or without an entry, the cache then holds the database's current row
      for another TTL, or nothing for a key the database does not have. */
  lemma ServedIff(ttl: real, s: State, n: nat, t: Thread, key: Key, at: real)
    requires PcOf(s, t).Idle?
    ensures var y, row := Serve(ttl, s, n, t, key, at), Consulted(ttl, s, key, at);
      && PcOf(y, t).Idle? && y.db == s.db
      && (if Admissible(row, at) then
            |y.grants| == |s.grants| + 1 && y.grants[..|s.grants|] == s.grants
            && y.grants[|s.grants|].key == key && y.grants[|s.grants|].row == row.value
          else y.grants == s.grants)
      && (forall k :: k != key ==> (k in y.cache <==> k in s.cache) && (k in s.cache ==> y.cache[k] == s.cache[k]))
      && (Fresh(ttl, s, key, at) ==> y.cache == s.cache)
      && (ttl > 0.0 && !Fresh(ttl, s, key, at) ==>
            (key in y.cache <==> key in s.db)
            && (key in s.db ==> y.cache[key].row == s.db[key] && y.cache[key].expiresAt == at + ttl))
  {
    if Fresh(ttl, s, key, at) {
      ServedFromCache(ttl, s, n, t, key, at);
    } else {
      ServedFromDatabase(ttl, s, n, t, key, at);
    }
  }

  lemma ServedFromCache(ttl: real, s: State, n: nat, t: Thread, key: Key, at: real)
    requires PcOf(s, t).Idle? && Fresh(ttl, s, key, at)
    ensures var y, c := Serve(ttl, s, n, t, key, at), s.cache[key];
            y == if Admissible(Some(c.row), at)
                 then s.(grants := s.grants + [Grant(key, c.row, c.read, c.stored, n)])
                 else s
  {}

  lemma ServedFromDatabase(ttl: real, s: State, n: nat, t: Thread, key: Key, at: real)
    requires PcOf(s, t).Idle? && !Fresh(ttl, s, key, at)
    ensures var y := Serve(ttl, s, n, t, key, at);
      && PcOf(y, t).Idle? && y.db == s.db
      && (if key in s.db && Admissible(Some(s.db[key]), at) then
            y.grants == s.grants + [Grant(key, s.db[key], n + 1, n + 2, n + 2)]
          else y.grants == s.grants)
      && (forall k :: k != key ==> (k in y.cache <==> k in s.cache) && (k in s.cache ==> y.cache[k] == s.cache[k]))
      && (ttl > 0.0 ==>
            (key in y.cache <==> key in s.db)
            && (key in s.db ==> y.cache[key].row == s.db[key] && y.cache[key].expiresAt == at + ttl))
  {
    var s1 := Apply(ttl, s, n, Lookup(t, key, at));
    assert PcOf(s1, t) == Missed(key) && s1.db == s.db && s1.grants == s.grants;
    assert ttl > 0.0 ==> key !in s1.cache;
    var s2 := Apply(ttl, s1, n + 1, Fetch(t, at));
    assert s2.db == s.db && s2.cache == s1.cache && s2.grants == s.grants;
    assert PcOf(s2, t) == if key in s.db then Fetched(key, s.db[key], n + 1) else Idle;
  }
}
