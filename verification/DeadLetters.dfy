/** The dead-letter list under concurrent retriers, and the lease that fences off a
    falsely reaped worker. */
module DeadLetters {
  import opened Text
  import opened ScanJobs
  import opened RedisStore
  import opened Books
  import opened QueueMachine
  import opened QueueConservation

  /** Every MoveToDLQ of `id` is on the list, in a retrier's hand, published again or given up. */
  ghost predicate Settled(x: World, id: Id) {
    x.log.buried[id] ==
      Count(x.db.dlq, id) + Held(x.threads, Retriers, id) + x.log.republished[id] + x.log.abandoned[id]
  }

  predicate SameDead(x: World, y: World) {
    y.db.dlq == x.db.dlq && y.threads == x.threads && y.log.buried == x.log.buried
    && y.log.republished == x.log.republished && y.log.abandoned == x.log.abandoned
  }

  /** A step by a thread outside RetryDLQJob that stays outside it. */
  lemma OutsiderSettled(x: World, y: World, t: Thread, id: Id)
    requires Settled(x, id) && SameDead(x, y.(threads := x.threads)) && y.threads == x.threads[t := PcOf(y, t)]
    requires !Holds(PcOf(x, t), Retriers) && !Holds(PcOf(y, t), Retriers)
    ensures Settled(y, id)
  {
    hide Held, Count;
    HeldAfterGoto(x, t, PcOf(y, t), Retriers, id);
  }

  predicate SweepStep(s: Step) {
    s.Requeue? || s.Judge? || s.Snapshot? || s.TakeNext? || s.TakeUnseen? || s.TakeFailed? || s.GiveBack?
    || s.GiveBackFailed? || s.EndSweep?
  }

  lemma SweepSettled(x: World, s: Step, id: Id)
    requires Settled(x, id) && SweepStep(s)
    ensures Settled(Apply(x, s), id)
  {
    hide Apply, Settled, Stale, RemoveFirst, Credit;
    ApplySweep(x, s);
    ApplyPlain(x, s);
    var y := Apply(x, s);
    if y != x { OutsiderSettled(x, y, s.t, id); }
  }

  lemma BurySettled(x: World, j: Id, id: Id)
    requires Settled(x, id)
    ensures Settled(Apply(x, MoveToDLQ(j)), id)
  {
    hide Apply, Held;
    ApplyDead(x, MoveToDLQ(j));
    assert multiset([j] + x.db.dlq) == multiset{j} + multiset(x.db.dlq);
  }

  lemma RemoveSettled(x: World, t: Thread, j: Id, id: Id)
    requires Settled(x, id)
    ensures Settled(Apply(x, RetryRemove(t, j)), id) && Settled(Apply(x, RetryRemoveUnseen(j)), id)
  {
    hide Apply, Held, Count;
    ApplyDead(x, RetryRemove(t, j));
    ApplyDead(x, RetryRemoveUnseen(j));
    CountRemove(x.db.dlq, j, id);
    HeldAfterGoto(x, t, Retrying(j), Retriers, id);
  }

  lemma LoseHandSettled(x: World, t: Thread, pc: Pc, id: Id)
    requires Settled(x, id) && !Holds(pc, Retriers)
    ensures Settled(LoseHand(x, t, pc), id)
  {
    hide Held, Count, Credit;
    HeldAfterGoto(x, t, pc, Retriers, id);
  }

  lemma CrashSettled(x: World, t: Thread, id: Id)
    requires Settled(x, id)
    ensures Settled(Apply(x, Crash(t)), id)
  {
    hide Settled, LoseHand;
    LoseHandSettled(x, t, Idle, id);
  }

  lemma LoadSettled(x: World, t: Thread, id: Id)
    requires Settled(x, id)
    ensures Settled(Apply(x, RetryLoad(t)), id)
  {
    hide Held, Count, Republication;
    var pc := PcOf(x, t);
    if pc.Retrying? {
      LoseHandSettled(x, t, Idle, id);
      HeldAfterGoto(x, t, Republishing(pc.id, Republication(HashOf(x.db, pc.id))), Retriers, id);
    }
  }

  lemma RepublishSettled(x: World, t: Thread, id: Id)
    requires Settled(x, id)
    ensures Settled(Apply(x, RetryPublish(t)), id)
  {
    hide Held, Count;
    HeldAfterGoto(x, t, Idle, Retriers, id);
  }

  /** Steps with no part in dead-lettering. */
  predicate Stranger(s: Step) {
    !SweepStep(s) && !s.MoveToDLQ? && !s.RetryRemove? && !s.RetryRemoveUnseen? && !s.Crash? && !s.RetryLoad?
    && !s.RetryPublish?
  }

  lemma StrangerSameDead(x: World, s: Step)
    requires Stranger(s)
    ensures SameDead(x, Apply(x, s))
  {
    hide DoMove, DoWrite, DoBury, DoUnbury, DoUnburyUnseen, DoGiveBackFailed;
    hide DoPop, DoAck, DoTake, DoTakeUnseen, DoGiveBack, LoseHand, DoCancel, DoEndSweep, DoLoad, DoRepublish;
    hide Stale, RemoveFirst, Publish, HSet, SAdd, SRem, Bury, PcOf;
  }

  lemma FrameSettled(x: World, y: World, id: Id)
    requires Settled(x, id) && SameDead(x, y)
    ensures Settled(y, id)
  {}

  lemma StepSettled(x: World, s: Step, id: Id)
    requires Settled(x, id)
    ensures Settled(Apply(x, s), id)
  {
    hide Settled, Apply;
    if SweepStep(s) {
      SweepSettled(x, s, id);
    } else if s.MoveToDLQ? {
      BurySettled(x, s.id, id);
    } else if s.RetryRemove? {
      RemoveSettled(x, s.t, s.id, id);
    } else if s.RetryRemoveUnseen? {
      RemoveSettled(x, 0, s.id, id);
    } else if s.Crash? {
      CrashSettled(x, s.t, id);
    } else if s.RetryLoad? {
      LoadSettled(x, s.t, id);
    } else if s.RetryPublish? {
      RepublishSettled(x, s.t, id);
    } else {
      StrangerSameDead(x, s);
      FrameSettled(x, Apply(x, s), id);
    }
  }

  lemma {:induction false} RunSettled(steps: seq<Step>, id: Id)
    ensures Settled(Run(START, steps), id)
  {
    hide Apply;
    if steps != [] {
      var n := |steps| - 1;
      RunSettled(steps[..n], id);
      StepSettled(Run(START, steps[..n]), steps[n], id);
    }
  }

  ghost function InRetry(x: World): multiset<Id> { Total(HandBook(x.threads, Retriers)) }

  /** With any number of concurrent retriers, each MoveToDLQ yields at most one republish:
      what was dead-lettered is on the list, in a retrier's hand, published again, or
      given up by a retrier that failed after its removal. */
  lemma DeadLetterConservation(steps: seq<Step>)
    ensures var x := Run(START, steps);
            x.log.buried == multiset(x.db.dlq) + InRetry(x) + x.log.republished + x.log.abandoned
  {
    hide Run, Total, HandBook;
    var x := Run(START, steps);
    forall id ensures x.log.buried[id] == (multiset(x.db.dlq) + InRetry(x) + x.log.republished + x.log.abandoned)[id] {
      RunSettled(steps, id);
    }
  }

  // The ID a retry publishes under

  /** The hash names the job: its `id` field is the job's ID. Without the field it names the
      empty ID. */
  predicate Carries(h: Hash, id: Id) { if KId in h then h[KId] == id else id == "" }

  lemma RetryKeepsIdentity(id: Id, h: Hash)
    ensures Republication(h).id == id <==> Carries(h, id)
  {
    hide Encode, Fields;
  }

  /** The step reads the hash of a job that its thread has taken off the list. */
  predicate Loads(x: World, s: Step) {
    s.RetryLoad? && PcOf(x, s.t).Retrying? && HashOf(x.db, PcOf(x, s.t).id) != map[]
  }

  /** A thread is about to publish only what it read when it loaded the hash. */
  lemma StepRepublishing(x: World, s: Step, t: Thread)
    requires PcOf(Apply(x, s), t).Republishing?
    ensures || PcOf(Apply(x, s), t) == PcOf(x, t)
            || (s == RetryLoad(t) && Loads(x, s) &&
                PcOf(Apply(x, s), t) == Republishing(PcOf(x, t).id, Republication(HashOf(x.db, PcOf(x, t).id))))
  {
    hide Republication, Publish, Stale, RemoveFirst, Credit, Cancel, HSet, SAdd, SRem, Bury, HashOf;
  }

  lemma LoadPrepares(x: World, s: Step)
    requires Loads(x, s)
    ensures PcOf(Apply(x, s), s.t) == Republishing(PcOf(x, s.t).id, Republication(HashOf(x.db, PcOf(x, s.t).id)))
  {
    hide Republication;
  }

  /** Every republication in preparation goes back to one load of the hash by that thread. */
  lemma {:induction false} RepublicationTraced(steps: seq<Step>, t: Thread) returns (m: nat)
    requires PcOf(Run(START, steps), t).Republishing?
    ensures m < |steps| && steps[m] == RetryLoad(t) && Loads(Run(START, steps[..m]), steps[m])
    ensures var x, pc := Run(START, steps[..m]), PcOf(Run(START, steps), t);
            pc == Republishing(PcOf(x, t).id, Republication(HashOf(x.db, PcOf(x, t).id)))
  {
    hide Apply, Loads, Republication;
    var n := |steps| - 1;
    var x := Run(START, steps[..n]);
    StepRepublishing(x, steps[n], t);
    if PcOf(Apply(x, steps[n]), t) == PcOf(x, t) {
      m := RepublicationTraced(steps[..n], t);
      assert steps[..n][..m] == steps[..m];
    } else {
      m := n;
    }
  }

  ghost predicate AlwaysNamed(steps: seq<Step>) {
    forall n :: 0 <= n < |steps| && Loads(Run(START, steps[..n]), steps[n]) ==>
      LoadsNamed(Run(START, steps[..n]), steps[n])
  }

  predicate LoadsNamed(x: World, s: Step) {
    Loads(x, s) && Carries(HashOf(x.db, PcOf(x, s.t).id), PcOf(x, s.t).id)
  }

  /** The thread is not about to publish under another ID than the one it took off the list. */
  predicate KeepsId(x: World, t: Thread) {
    PcOf(x, t).Republishing? ==> PcOf(x, t).p.id == PcOf(x, t).id
  }

  ghost predicate AlwaysKeepsId(steps: seq<Step>) {
    forall n: nat, t: Thread :: n <= |steps| ==> KeepsId(Run(START, steps[..n]), t)
  }

  lemma KeepsIdAt(steps: seq<Step>, t: Thread)
    requires AlwaysNamed(steps)
    ensures KeepsId(Run(START, steps), t)
  {
    hide Run, Republication, Carries;
    if PcOf(Run(START, steps), t).Republishing? {
      var m := RepublicationTraced(steps, t);
      var x := Run(START, steps[..m]);
      assert LoadsNamed(x, steps[m]);
      RetryKeepsIdentity(PcOf(x, t).id, HashOf(x.db, PcOf(x, t).id));
    }
  }

  lemma NamedPrefix(steps: seq<Step>, n: nat)
    requires n <= |steps| && AlwaysNamed(steps)
    ensures AlwaysNamed(steps[..n])
  {
    hide Run, Loads, LoadsNamed;
    forall k | 0 <= k < n && Loads(Run(START, steps[..n][..k]), steps[..n][k])
      ensures LoadsNamed(Run(START, steps[..n][..k]), steps[..n][k])
    {
      assert steps[..n][..k] == steps[..k];
    }
  }

  /** Over every run: no retry ever publishes a job under another ID than the one it took off
      the list exactly when every hash that a retry loads carries that job's ID. */
  lemma RetriesKeepIdentityIff(steps: seq<Step>)
    ensures AlwaysKeepsId(steps) <==> AlwaysNamed(steps)
  {
    hide Run, Apply, Republication, Carries, HashOf;
    if AlwaysNamed(steps) {
      forall n: nat, t: Thread | n <= |steps| ensures KeepsId(Run(START, steps[..n]), t) {
        NamedPrefix(steps, n);
        KeepsIdAt(steps[..n], t);
      }
    }
    if AlwaysKeepsId(steps) {
      forall n | 0 <= n < |steps| && Loads(Run(START, steps[..n]), steps[n])
        ensures LoadsNamed(Run(START, steps[..n]), steps[n])
      {
        var x, s := Run(START, steps[..n]), steps[n];
        LoadPrepares(x, s);
        RunSnoc(steps, n);
        assert KeepsId(Run(START, steps[..n + 1]), s.t);
        RetryKeepsIdentity(PcOf(x, s.t).id, HashOf(x.db, PcOf(x, s.t).id));
      }
    }
  }

  /** A run that gets there: the dead job's hash has expired, a late phase write recreates it
      without its `id` field, and the retry publishes the empty ID in place of the job's. */
  lemma RetryLosesIdentity(id: Id, phase: string, t: Thread)
    requires id != ""
    ensures var x := Run(START, [MoveToDLQ(id), WriteHash(id, map[KPhase := phase]),
                                 RetryRemove(t, id), RetryLoad(t), RetryPublish(t)]);
            x.db.queue == [""] && x.db.dlq == [] && x.log.republished == multiset{id}
  {
    hide Republication, Publish, Run;
    var h: Hash := map[KPhase := phase];
    var first, last := [MoveToDLQ(id), WriteHash(id, h)], [RetryRemove(t, id), RetryLoad(t), RetryPublish(t)];
    var x := Run(START, first);
    BuriedThenWritten(id, h);
    hide Apply;
    RunConcat(START, first, last);
    assert first + last == [MoveToDLQ(id), WriteHash(id, h), RetryRemove(t, id), RetryLoad(t), RetryPublish(t)];
    assert KPhase in h;
    RetryRuns(x, id, t);
    RetryKeepsIdentity("", h);
  }

  lemma BuriedThenWritten(id: Id, h: Hash)
    ensures var x := Run(START, [MoveToDLQ(id), WriteHash(id, h)]);
            && x.db.dlq == [id] && x.db.queue == [] && HashOf(x.db, id) == h
            && x.threads == map[] && x.log.republished == multiset{}
  {
    RunTwo(START, MoveToDLQ(id), WriteHash(id, h));
    hide Run;
  }

  /** RetryDLQJob without interruption. */
  lemma RetryRuns(x: World, id: Id, t: Thread)
    requires PcOf(x, t).Idle? && id in x.db.dlq && HashOf(x.db, id) != map[]
    ensures var y := Run(x, [RetryRemove(t, id), RetryLoad(t), RetryPublish(t)]);
            && y.db == Publish(Unbury(x.db, id), Republication(HashOf(x.db, id)))
            && y.log.republished == x.log.republished + multiset{id}
  {
    hide Apply, Run, Republication, Publish, Unbury;
    RunThree(x, RetryRemove(t, id), RetryLoad(t), RetryPublish(t));
    RetryRemoved(x, id, t);
    var x1 := Apply(x, RetryRemove(t, id));
    RetryLoaded(x1, id, t);
    RetryPublished(Apply(x1, RetryLoad(t)), id, t, Republication(HashOf(x.db, id)));
  }

  lemma RetryRemoved(x: World, id: Id, t: Thread)
    requires PcOf(x, t).Idle? && id in x.db.dlq
    ensures var y := Apply(x, RetryRemove(t, id));
            && PcOf(y, t) == Retrying(id) && y.db == Unbury(x.db, id) && y.log == x.log
            && HashOf(y.db, id) == HashOf(x.db, id)
  {
    hide RemoveFirst;
  }

  lemma RetryLoaded(x: World, id: Id, t: Thread)
    requires PcOf(x, t) == Retrying(id) && HashOf(x.db, id) != map[]
    ensures var y := Apply(x, RetryLoad(t));
            PcOf(y, t) == Republishing(id, Republication(HashOf(x.db, id))) && y.db == x.db && y.log == x.log
  {
    hide Republication;
  }

  lemma RetryPublished(x: World, id: Id, t: Thread, p: Publication)
    requires PcOf(x, t) == Republishing(id, p)
    ensures var y := Apply(x, RetryPublish(t));
            y.db == Publish(x.db, p) && y.log.republished == x.log.republished + multiset{id}
  {
    hide Publish;
  }

  // Lease fencing

  /** Who holds the lease by the steps alone: the worker of the latest SetJobLease for `id`,
      unless the lease was cleared, or ran out, after that. */
  function Holder(steps: seq<Step>, id: Id): Option<Worker> {
    if steps == [] then None
    else
      var last := steps[|steps| - 1];
      if last.SetLease? && last.id == id then Some(last.w)
      else if last.ClearLease? && last.id == id then None
      else Holder(steps[..|steps| - 1], id)
  }

  lemma StepLease(x: World, s: Step, id: Id)
    ensures var y := Apply(x, s);
            if s.SetLease? && s.id == id then id in y.db.leases && y.db.leases[id] == s.w
            else if s.ClearLease? && s.id == id then id !in y.db.leases
            else
              && (id in y.db.leases <==> id in x.db.leases)
              && (id in x.db.leases ==> y.db.leases[id] == x.db.leases[id])
  {
    hide Apply, PcOf;
    if WritesOnly(s) {
      ApplyPlain(x, s);
    } else if s.EndSweep? {
      ApplySweep(x, s);
      hide DoEndSweep;
    } else {
      RegistryKept(x, s);
    }
  }

  lemma {:induction false} LeaseIsHolder(steps: seq<Step>, id: Id)
    ensures var db := Run(START, steps).db;
            Holder(steps, id) == if id in db.leases then Some(db.leases[id]) else None
  {
    hide Apply;
    if steps != [] {
      var n := |steps| - 1;
      LeaseIsHolder(steps[..n], id);
      StepLease(Run(START, steps[..n]), steps[n], id);
    }
  }

  /** Over every run with leases set, cleared and expiring: a worker is rejected exactly when
      a different worker, with a name, holds the lease. So the latest setter never is, and a
      superseded worker is until the lease ends. */
  lemma LeaseFences(steps: seq<Step>, id: Id, w: Worker)
    ensures !OwnsLease(Run(START, steps).db, id, w) <==> exists v :: Holder(steps, id) == Some(v) && v != w && v != ""
  {
    hide Run, Holder;
    LeaseIsHolder(steps, id);
    var db := Run(START, steps).db;
    if id in db.leases { assert Holder(steps, id) == Some(db.leases[id]); }
  }
}
