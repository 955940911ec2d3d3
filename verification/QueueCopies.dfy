/** How many live copies of a job there are, and what that makes of the two promises about
    them: a job is in one place only, and a job filed as queued can still be picked up. */
module QueueCopies {
  import opened ScanJobs
  import opened RedisStore
  import opened Books
  import opened QueueMachine
  import opened QueueConservation

  /** The copies of `id` in the queue, in processing lists and in requeuers' hands. */
  ghost function Live(x: World, id: Id): nat {
    Count(x.db.queue, id) + Running(x.db.processing, id) + Held(x.threads, Requeuers, id)
  }

  /** The copies of `id` that are no more. */
  ghost function Gone(x: World, id: Id): nat {
    Sum(x.log.acked, id) + Count(x.log.cancelled, id) + Sum(x.log.lost, id)
  }

  // What a step is about to do to the copies of one job

  predicate Publishes(x: World, s: Step, id: Id) {
    match s
    case Enqueue(p) => p.id == id
    case Admit(p, limit, count) => p.id == id && Admits(x.db, limit, count)
    case PushJob(j) => j == id
    case RetryPublish(t) => PcOf(x, t).Republishing? && PcOf(x, t).p.id == id
    case _ => false
  }

  /** An ack that finds the job, or the loss of a job between LREM and RPUSH. */
  predicate Settles(x: World, s: Step, id: Id) {
    if s.Ack? then s.id == id && id in Proc(x.db, s.w)
    else if s.TakeUnseen? then
      var pc := PcOf(x, s.t); pc.Sweeping? && pc.todo != [] && pc.todo[0] == id && id in Proc(x.db, pc.w)
    else if s.GiveBackFailed? || s.Crash? then PcOf(x, s.t).Holding? && PcOf(x, s.t).id == id
    else false
  }

  predicate Cancels(x: World, s: Step, id: Id) {
    s.CancelJob? && s.id == id && HasStatus(x.db, id, QUEUED) && id in x.db.queue
  }

  function One(b: bool): nat { if b then 1 else 0 }

  lemma PublishedStep(x: World, s: Step, id: Id)
    ensures Apply(x, s).log.published[id] == x.log.published[id] + One(Publishes(x, s, id))
  {
    hide Apply;
    ApplyQueue(x, s);
    ApplySweep(x, s);
    ApplyDead(x, s);
    ApplyPlain(x, s);
    hide DoMove, DoWrite, DoPop, DoAck, DoTake, DoTakeUnseen, DoGiveBack, DoGiveBackFailed, DoEndSweep;
    hide LoseHand, DoBury, DoUnbury, DoUnburyUnseen, DoLoad, DoCancel, Publish, RPush, Goto;
    if s.RetryPublish? { RepublishedStep(x, s.t, id); }
    hide DoRepublish;
  }

  lemma RepublishedStep(x: World, t: Thread, id: Id)
    ensures DoRepublish(x, t).log.published[id]
         == x.log.published[id] + One(PcOf(x, t).Republishing? && PcOf(x, t).p.id == id)
  {
    hide Publish;
  }

  /** Steps that neither ack, cancel nor lose anything. */
  predicate KeepsGone(s: Step) { !s.Ack? && !s.TakeUnseen? && !s.GiveBackFailed? && !s.Crash? && !s.CancelJob? }

  lemma GoneKept(x: World, s: Step)
    requires KeepsGone(s)
    ensures var y := Apply(x, s);
            y.log.acked == x.log.acked && y.log.cancelled == x.log.cancelled && y.log.lost == x.log.lost
  {
    hide DoMove, DoWrite, DoBury, DoUnbury, DoUnburyUnseen, DoGiveBackFailed;
    hide DoPop, DoAck, DoTake, DoTakeUnseen, DoGiveBack, LoseHand, DoCancel, DoEndSweep, DoLoad, DoRepublish;
    hide Publish, Goto, Stale, RemoveFirst, PcOf, Published;
    if Bystander(s) {
      hide Apply;
      BystanderAccounts(x, s);
    }
  }

  lemma AckGone(x: World, w: Worker, a: Id, id: Id)
    ensures Gone(DoAck(x, w, a), id) == Gone(x, id) + One(a == id && id in Proc(x.db, w))
  {
    hide Sum, Count, Credit, Take;
    if a in Proc(x.db, w) { SumCredit(x.log.acked, w, a, id); }
  }

  lemma TakeUnseenGone(x: World, t: Thread, id: Id)
    ensures Gone(DoTakeUnseen(x, t), id) == Gone(x, id) + One(Settles(x, TakeUnseen(t), id))
  {
    hide Sum, Count, Credit, Take;
    var pc := PcOf(x, t);
    if pc.Sweeping? && pc.todo != [] { SumCredit(x.log.lost, pc.w, pc.todo[0], id); }
  }

  lemma LoseHandGone(x: World, t: Thread, pc: Pc, id: Id)
    ensures Gone(LoseHand(x, t, pc), id) == Gone(x, id) + One(PcOf(x, t).Holding? && PcOf(x, t).id == id)
  {
    hide Sum, Count, Credit;
    var from := PcOf(x, t);
    if from.Holding? { SumCredit(x.log.lost, from.w, from.id, id); }
  }

  lemma CancelGone(x: World, c: Id, at: string, id: Id)
    ensures Gone(DoCancel(x, c, at), id) == Gone(x, id) + One(Cancels(x, CancelJob(c, at), id))
  {
    hide Sum, Count, Cancel;
    CountAppend(x.log.cancelled, c, id);
  }

  lemma GoneStep(x: World, s: Step, id: Id)
    ensures Gone(Apply(x, s), id) == Gone(x, id) + One(Settles(x, s, id)) + One(Cancels(x, s, id))
  {
    hide Apply;
    ApplyQueue(x, s);
    ApplySweep(x, s);
    hide DoAck, DoTakeUnseen, LoseHand, DoCancel;
    if KeepsGone(s) {
      GoneKept(x, s);
    } else {
      hide Gone;
      if s.Ack? { AckGone(x, s.w, s.id, id); }
      else if s.TakeUnseen? { TakeUnseenGone(x, s.t, id); }
      else if s.CancelJob? { CancelGone(x, s.id, s.at, id); }
      else if s.Crash? { LoseHandGone(x, s.t, Idle, id); }
      else if PcOf(x, s.t).Holding? {
        LoseHandGone(x, s.t, Sweeping(PcOf(x, s.t).w, PcOf(x, s.t).todo, PcOf(x, s.t).reaping), id);
      }
    }
  }

  /** In every reachable state, what a step does to the number of live copies. */
  lemma StepLive(steps: seq<Step>, s: Step, id: Id)
    ensures var x := Run(START, steps);
            Live(Apply(x, s), id) + One(Settles(x, s, id)) + One(Cancels(x, s, id))
            == Live(x, id) + One(Publishes(x, s, id))
  {
    hide Run, Apply, Running, Held, Sum, Entry, Count, Publishes, Settles, Cancels;
    var x := Run(START, steps);
    RunAccounted(steps, "", id);
    StepAccounted(x, s, "", id);
    PublishedStep(x, s, id);
    GoneStep(x, s, id);
  }

  lemma StartLive(id: Id)
    ensures Live(START, id) == 0
  {}

  // One place at a time

  /** `id` is published at most while no copy of it is live. */
  ghost predicate PublishedWhenGone(steps: seq<Step>, id: Id) {
    forall n :: 0 <= n < |steps| ==>
      (Publishes(Run(START, steps[..n]), steps[n], id) ==> Live(Run(START, steps[..n]), id) == 0)
  }

  ghost predicate AlwaysSingle(steps: seq<Step>, id: Id) {
    forall n :: 0 <= n <= |steps| ==> Live(Run(START, steps[..n]), id) <= 1
  }

  lemma {:induction false} SingleAt(steps: seq<Step>, id: Id, n: nat)
    requires PublishedWhenGone(steps, id) && n <= |steps|
    ensures Live(Run(START, steps[..n]), id) <= 1
  {
    hide Run, Live, Publishes, Settles, Cancels;
    if n == 0 {
      assert Run(START, steps[..0]) == START by { RunNone(); }
      StartLive(id);
    } else {
      SingleAt(steps, id, n - 1);
      StepLive(steps[..n - 1], steps[n - 1], id);
      RunSnoc(steps, n - 1);
    }
  }

  lemma RunNone()
    ensures Run(START, []) == START
  {}

  /** Over every run: a job is never in two places, queue, processing lists and hands taken
      together, exactly when each publication of it comes while no copy is live. */
  lemma OnePlaceIff(steps: seq<Step>, id: Id)
    ensures AlwaysSingle(steps, id) <==> PublishedWhenGone(steps, id)
  {
    hide Run, Live, Publishes, Settles, Cancels;
    if PublishedWhenGone(steps, id) {
      forall n | 0 <= n <= |steps| ensures Live(Run(START, steps[..n]), id) <= 1 { SingleAt(steps, id, n); }
    }
    if AlwaysSingle(steps, id) {
      forall n | 0 <= n < |steps| && Publishes(Run(START, steps[..n]), steps[n], id)
        ensures Live(Run(START, steps[..n]), id) == 0
      {
        StepLive(steps[..n], steps[n], id);
        RunSnoc(steps, n);
        PublishNotGone(Run(START, steps[..n]), steps[n], id);
        assert Live(Run(START, steps[..n + 1]), id) <= 1;
      }
    }
  }

  lemma PublishNotGone(x: World, s: Step, id: Id)
    requires Publishes(x, s, id)
    ensures !Settles(x, s, id) && !Cancels(x, s, id)
  {}

  lemma RunningAtLeast(db: Redis, w: Worker, v: Worker, id: Id)
    requires w != v
    ensures Count(Proc(db, w), id) + Count(Proc(db, v), id) <= Running(db.processing, id)
  {
    hide Running;
    assert Count([], id) == 0;
    var emptied := db.(processing := db.processing[w := []]);
    RunningAfterSet(db, w, [], id);
    RunningAfterSet(emptied, v, [], id);
  }

  /** What a single live copy means place by place: of the queue, any two workers' lists and
      any requeuer's hand, only one has it. */
  lemma OnePlace(x: World, id: Id, w: Worker, v: Worker, t: Thread)
    requires Live(x, id) <= 1 && w != v
    ensures Count(x.db.queue, id) + Count(Proc(x.db, w), id) + Count(Proc(x.db, v), id)
            + Grip(PcOf(x, t), Requeuers, id) <= 1
  {
    hide Running, Held, Count;
    RunningAtLeast(x.db, w, v, id);
    HeldAfterGoto(x, t, Idle, Requeuers, id);
  }

  /** The worker's retry path pushes a job again before acking it: in between, the job is
      both in the queue and in the worker's list. */
  lemma WorkerRetryTwoPlaces(p: Publication, w: Worker)
    ensures var x := Run(START, [Enqueue(p), Pop(w), PushJob(p.id)]);
            x.db.queue == [p.id] && Proc(x.db, w) == [p.id] && x.log.published[p.id] == 2
  {
    var s0, s1, s2 := Enqueue(p), Pop(w), PushJob(p.id);
    RunThree(START, s0, s1, s2);
    hide Run, Apply, Publish;
    var x1 := Apply(START, s0);
    ApplyQueue(START, s0);
    ApplyQueue(x1, s1);
    ApplyQueue(Apply(x1, s1), s2);
    assert x1.db.queue == [p.id] && x1.db.processing == map[] && x1.log.published == multiset{p.id};
  }

  // A job filed as queued can still be picked up

  ghost predicate Reachable(x: World, id: Id) {
    id in Members(x.db, QUEUED) ==> Live(x, id) >= 1
  }

  /** The last copy of a job filed as queued is not settled, and only a job with a live copy
      is filed as queued by hand. */
  ghost predicate Careful(x: World, s: Step, id: Id) {
    && (s == AddStatus(QUEUED, id) ==> Live(x, id) >= 1)
    && (Settles(x, s, id) && id in Members(x.db, QUEUED) ==> Live(x, id) >= 2)
  }

  /** Who enters and leaves the queued set. */
  lemma QueuedMembers(x: World, s: Step, id: Id)
    ensures var y := Apply(x, s);
            && (id in Members(y.db, QUEUED) ==>
                  id in Members(x.db, QUEUED) || s == AddStatus(QUEUED, id) || Publishes(x, s, id))
            && (s == AddStatus(QUEUED, id) ==> id in Members(y.db, QUEUED))
            && (Cancels(x, s, id) ==> id !in Members(y.db, QUEUED))
            && (Settles(x, s, id) && id in Members(x.db, QUEUED) ==> id in Members(y.db, QUEUED))
  {
    hide Apply, Cancel, Publish, Bury, DoRepublish, Goto, RemoveFirst, HSet, Published;
    ApplyQueue(x, s);
    ApplyDead(x, s);
    ApplyPlain(x, s);
    if KeepsSets(s) {
      SetsKept(x, s);
    } else if s.CancelJob? {
      CancelQueued(x.db, s.id, s.at, id);
    } else if s.RetryPublish? {
      RepublishQueued(x, s.t, id);
    } else if s.Enqueue? || s.Admit? {
      PublishQueued(x.db, s.p, id);
    } else if s.MoveToDLQ? {
      BuryQueued(x.db, s.id, id);
    }
  }

  lemma PublishQueued(db: Redis, p: Publication, id: Id)
    ensures id in Members(Publish(db, p), QUEUED) ==> id in Members(db, QUEUED) || p.id == id
  {}

  lemma BuryQueued(db: Redis, j: Id, id: Id)
    ensures id in Members(Bury(db, j), QUEUED) ==> id in Members(db, QUEUED)
  {}

  predicate KeepsSets(s: Step) {
    !s.Enqueue? && !s.Admit? && !s.RetryPublish? && !s.MoveToDLQ? && !s.CancelJob? && !s.AddStatus? && !s.DropStatus?
  }

  lemma SetsKept(x: World, s: Step)
    requires KeepsSets(s)
    ensures Apply(x, s).db.sets == x.db.sets
  {
    hide DoMove, DoWrite, DoBury, DoUnbury, DoUnburyUnseen, DoGiveBackFailed;
    hide DoPop, DoAck, DoTake, DoTakeUnseen, DoGiveBack, LoseHand, DoCancel, DoEndSweep, DoLoad, DoRepublish;
    hide Publish, Published, Goto, Stale, RemoveFirst, HSet, Bury, PcOf;
  }

  lemma CancelQueued(db: Redis, c: Id, at: string, id: Id)
    ensures id in Members(Cancel(db, c, at), QUEUED) <==> id in Members(db, QUEUED) && id != c
  {}

  lemma RepublishQueued(x: World, t: Thread, id: Id)
    ensures id in Members(DoRepublish(x, t).db, QUEUED) ==>
              id in Members(x.db, QUEUED) || (PcOf(x, t).Republishing? && PcOf(x, t).p.id == id)
  {}

  lemma StepReachable(steps: seq<Step>, s: Step, id: Id)
    requires Reachable(Run(START, steps), id)
    ensures Reachable(Apply(Run(START, steps), s), id) <==> Careful(Run(START, steps), s, id)
  {
    var x := Run(START, steps);
    StepLive(steps, s, id);
    QueuedMembers(x, s, id);
    hide Run, Apply, Live;
    if Settles(x, s, id) { SettleOnly(x, s, id); }
    if s == AddStatus(QUEUED, id) { assert !Publishes(x, s, id); }
  }

  lemma SettleOnly(x: World, s: Step, id: Id)
    requires Settles(x, s, id)
    ensures !Publishes(x, s, id) && !Cancels(x, s, id)
  {}

  ghost predicate AlwaysReachable(steps: seq<Step>, id: Id) {
    forall n :: 0 <= n <= |steps| ==> Reachable(Run(START, steps[..n]), id)
  }

  ghost predicate AlwaysCareful(steps: seq<Step>, id: Id) {
    forall n :: 0 <= n < |steps| ==> Careful(Run(START, steps[..n]), steps[n], id)
  }

  lemma {:induction false} ReachableAt(steps: seq<Step>, id: Id, n: nat)
    requires AlwaysCareful(steps, id) && n <= |steps|
    ensures Reachable(Run(START, steps[..n]), id)
  {
    hide Run, Reachable, Careful;
    if n == 0 {
      assert Run(START, steps[..0]) == START by { RunNone(); }
      StartReachable(id);
    } else {
      ReachableAt(steps, id, n - 1);
      StepReachable(steps[..n - 1], steps[n - 1], id);
      RunSnoc(steps, n - 1);
      assert Careful(Run(START, steps[..n - 1]), steps[n - 1], id);
    }
  }

  lemma StartReachable(id: Id)
    ensures Reachable(START, id)
  {}

  /** No job is filed as queued without a copy in the queue, a list or a hand, at any moment
      of a run with any clients and faults, exactly when nobody files a job by hand that has
      no copy, and nobody acks or loses the last copy of a job still filed as queued. The
      publishing and cancelling scripts need no care. */
  lemma QueuedReachableIff(steps: seq<Step>, id: Id)
    ensures AlwaysReachable(steps, id) <==> AlwaysCareful(steps, id)
  {
    hide Run, Reachable, Careful;
    if AlwaysCareful(steps, id) {
      forall n | 0 <= n <= |steps| ensures Reachable(Run(START, steps[..n]), id) { ReachableAt(steps, id, n); }
    }
    if AlwaysReachable(steps, id) {
      forall n | 0 <= n < |steps| ensures Careful(Run(START, steps[..n]), steps[n], id) {
        assert Reachable(Run(START, steps[..n]), id) && Reachable(Run(START, steps[..n + 1]), id);
        StepReachable(steps[..n], steps[n], id);
        RunSnoc(steps, n);
      }
    }
  }

  /** Where care is lacking: a job filed as queued is popped and acked, and stays filed with
      no copy anywhere. */
  lemma FiledWithoutCopy(p: Publication, w: Worker)
    requires p.status == QUEUED
    ensures var x := Run(START, [Enqueue(p), Pop(w), Ack(w, p.id)]); p.id in Members(x.db, QUEUED) && Live(x, p.id) == 0
  {
    var steps := [Enqueue(p), Pop(w), Ack(w, p.id)];
    var x0, x1, x2 := Run(START, steps[..0]), Run(START, steps[..1]), Run(START, steps[..2]);
    assert steps[..3] == steps && x0 == START by { RunNone(); }
    RunSnoc(steps, 0);
    RunSnoc(steps, 1);
    RunSnoc(steps, 2);
    hide Run, Apply, RemoveFirst;
    ApplyQueue(x0, steps[0]);
    ApplyQueue(x1, steps[1]);
    ApplyQueue(x2, steps[2]);
    assert x1.db.queue == [p.id] && p.id in Members(x1.db, QUEUED) && x1.db.processing == map[];
    hide Publish, Published;
    assert Proc(x2.db, w) == [p.id] && x2.db.sets == x1.db.sets;
    hide DoPop, DoAck;
    StartLive(p.id);
    StepLive(steps[..0], steps[0], p.id);
    StepLive(steps[..1], steps[1], p.id);
    StepLive(steps[..2], steps[2], p.id);
    assert Publishes(x0, steps[0], p.id) && Settles(x2, steps[2], p.id);
  }
}
