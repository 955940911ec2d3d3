/** What a worker can rely on: its processing list is in the order in which it popped, and
    a worker that heartbeats in time is never reaped. */
module QueueWorkers {
  import opened Text
  import opened ScanJobs
  import opened RedisStore
  import opened QueueMachine
  import opened QueueOrder

  // A worker's list is in pop order

  /** What the step pops for worker `w`: the head of the queue, if there is one. */
  function PoppedBy(x: World, s: Step, w: Worker): seq<Id> {
    if s == Pop(w) && x.db.queue != [] then [x.db.queue[0]] else []
  }

  /** Everything worker `w` popped, in order. */
  function PopsOf(steps: seq<Step>, w: Worker): seq<Id> {
    if steps == [] then []
    else
      var n := |steps| - 1;
      PopsOf(steps[..n], w) + PoppedBy(Run(START, steps[..n]), steps[n], w)
  }

  /** How a step can change a list that nobody appended to. */
  ghost predicate Loses(list: seq<Id>, list': seq<Id>) {
    list' == list || exists id :: id in list && list' == RemoveFirst(list, id)
  }

  lemma PopList(x: World, v: Worker, w: Worker)
    ensures Proc(DoPop(x, v).db, w) == Proc(x.db, w) + PoppedBy(x, Pop(v), w)
  {}

  lemma TakeLoses(db: Redis, v: Worker, id: Id, w: Worker)
    ensures Loses(Proc(db, w), Proc(Take(db, v, id), w))
    ensures v != w ==> Proc(Take(db, v, id), w) == Proc(db, w)
  {}

  lemma AckLoses(x: World, v: Worker, id: Id, w: Worker)
    ensures Loses(Proc(x.db, w), Proc(DoAck(x, v, id).db, w))
    ensures v != w ==> Proc(DoAck(x, v, id).db, w) == Proc(x.db, w)
  {
    TakeLoses(x.db, v, id, w);
    assert Loses(Proc(x.db, w), Proc(x.db, w));
    hide Take, Loses;
  }

  lemma SweepLoses(x: World, t: Thread, w: Worker)
    ensures Loses(Proc(x.db, w), Proc(DoTake(x, t).db, w)) && Loses(Proc(x.db, w), Proc(DoTakeUnseen(x, t).db, w))
    ensures !Touches(PcOf(x, t), w) ==> Proc(DoTake(x, t).db, w) == Proc(x.db, w) == Proc(DoTakeUnseen(x, t).db, w)
  {
    match PcOf(x, t) {
      case Sweeping(v, todo, _) => if todo != [] { TakeLoses(x.db, v, todo[0], w); }
      case _ =>
    }
    assert Loses(Proc(x.db, w), Proc(x.db, w));
    hide Take, Loses;
  }

  /** The steps that can change a processing list. */
  predicate ListStep(s: Step) { s.Pop? || s.Ack? || s.TakeNext? || s.TakeUnseen? }

  lemma ListKept(x: World, s: Step, w: Worker)
    requires !ListStep(s)
    ensures Proc(Apply(x, s).db, w) == Proc(x.db, w)
  {
    hide DoMove, DoWrite, DoBury, DoUnbury, DoUnburyUnseen, DoGiveBackFailed;
    hide DoPop, DoAck, DoTake, DoTakeUnseen, DoGiveBack, LoseHand, DoCancel, DoEndSweep, DoLoad, DoRepublish;
    hide Publish;
  }

  lemma StepList(x: World, s: Step, w: Worker)
    ensures PoppedBy(x, s, w) == [] ==> Loses(Proc(x.db, w), Proc(Apply(x, s).db, w))
    ensures PoppedBy(x, s, w) != [] ==> Proc(Apply(x, s).db, w) == Proc(x.db, w) + PoppedBy(x, s, w)
  {
    hide Apply, Proc, DoPop, DoAck, DoTake, DoTakeUnseen, RemoveFirst;
    ApplyQueue(x, s);
    ApplySweep(x, s);
    if s.Pop? {
      PopList(x, s.w, w);
    } else if s.Ack? {
      AckLoses(x, s.w, s.id, w);
    } else if s.TakeNext? || s.TakeUnseen? {
      SweepLoses(x, s.t, w);
    } else {
      ListKept(x, s, w);
    }
  }

  /** `part` is what is left of `whole` after leaving some entries out. */
  ghost predicate Subsequence(part: seq<Id>, whole: seq<Id>) {
    exists ix: seq<nat> :: Within(ix, |whole|) && Increasing(ix) && Pick(whole, ix) == part
  }

  lemma SubsequenceSnoc(part: seq<Id>, whole: seq<Id>, id: Id)
    requires Subsequence(part, whole)
    ensures Subsequence(part + [id], whole + [id])
  {
    var ix: seq<nat> :| Within(ix, |whole|) && Increasing(ix) && Pick(whole, ix) == part;
    var ix' := ix + [|whole|];
    assert Pick(whole + [id], ix') == part + [id];
  }

  lemma SubsequenceLoses(part: seq<Id>, part': seq<Id>, whole: seq<Id>)
    requires Subsequence(part, whole) && Loses(part, part')
    ensures Subsequence(part', whole)
  {
    if part' != part {
      var ix: seq<nat> :| Within(ix, |whole|) && Increasing(ix) && Pick(whole, ix) == part;
      var id :| id in part && part' == RemoveFirst(part, id);
      var k := RemovedAt(part, id);
      PickWithout(whole, ix, k);
      IncreasingWithout(ix, k);
      assert Pick(whole, Without(ix, k)) == part';
    }
  }

  /** A worker's processing list holds its pops in the order in which it made them, less
      what was taken out. */
  lemma {:induction false} ListInPopOrder(steps: seq<Step>, w: Worker)
    ensures Subsequence(Proc(Run(START, steps).db, w), PopsOf(steps, w))
  {
    hide Apply, Subsequence, Loses;
    if steps == [] {
      NothingIsSubsequence();
    } else {
      var n := |steps| - 1;
      var x, s := Run(START, steps[..n]), steps[n];
      ListInPopOrder(steps[..n], w);
      StepList(x, s, w);
      if PoppedBy(x, s, w) == [] {
        assert PopsOf(steps, w) == PopsOf(steps[..n], w);
        SubsequenceLoses(Proc(x.db, w), Proc(Apply(x, s).db, w), PopsOf(steps[..n], w));
      } else {
        SubsequenceSnoc(Proc(x.db, w), PopsOf(steps[..n], w), x.db.queue[0]);
      }
    }
  }

  lemma NothingIsSubsequence()
    ensures Subsequence([], [])
  {
    assert Pick([], []) == [];
  }

  // Heartbeats

  /** The registration that worker `w` wrote last. */
  function LastRegistration(steps: seq<Step>, w: Worker): Option<Registration> {
    if steps == [] then None
    else
      var n := |steps| - 1;
      if steps[n].Register? && steps[n].w == w then Some(steps[n].r) else LastRegistration(steps[..n], w)
  }

  lemma StepRegistration(x: World, s: Step, w: Worker)
    ensures w in Apply(x, s).db.workers ==>
              if s.Register? && s.w == w then Apply(x, s).db.workers[w] == s.r
              else w in x.db.workers && Apply(x, s).db.workers[w] == x.db.workers[w]
  {
    hide DoMove, DoBury, DoUnbury, DoUnburyUnseen, DoGiveBackFailed;
    hide DoPop, DoAck, DoTake, DoTakeUnseen, DoGiveBack, LoseHand, DoCancel, DoLoad, DoRepublish;
    hide Publish, HSet, SAdd, SRem;
  }

  /** What Redis holds for a registered worker is what the worker wrote last. */
  lemma {:induction false} RegistrationIsLast(steps: seq<Step>, w: Worker)
    ensures var workers := Run(START, steps).db.workers;
            w in workers ==> LastRegistration(steps, w) == Some(workers[w])
  {
    hide Apply;
    if steps != [] {
      var n := |steps| - 1;
      RegistrationIsLast(steps[..n], w);
      StepRegistration(Run(START, steps[..n]), steps[n], w);
    }
  }

  /** The worker's last registration has a readable heartbeat at least `staleAfter` old. */
  predicate Overdue(steps: seq<Step>, w: Worker, now: int, staleAfter: int) {
    var last := LastRegistration(steps, w);
    last.Some? && last.value.lastHeartbeat.Some? && now - last.value.lastHeartbeat.value >= staleAfter
  }

  /** A reaper goes after a worker exactly when that worker has a name, is registered, and
      its last heartbeat is overdue. */
  lemma JudgedIff(steps: seq<Step>, t: Thread, w: Worker, now: int, staleAfter: int)
    requires PcOf(Run(START, steps), t) == Idle
    ensures PcOf(Run(START, steps + [Judge(t, w, now, staleAfter)]), t) == Judged(w)
            <==> w != "" && w in Run(START, steps).db.workers && Overdue(steps, w, now, staleAfter)
  {
    RegistrationIsLast(steps, w);
    hide Run, Apply, LastRegistration;
    var s := Judge(t, w, now, staleAfter);
    RunConcat(START, steps, [s]);
    RunOne(Run(START, steps), s);
    ApplyPlain(Run(START, steps), s);
  }

  /** No reaper ever asks about `w` when its last heartbeat is overdue. */
  predicate InTime(steps: seq<Step>, w: Worker) {
    forall n :: 0 <= n < |steps| && steps[n].Judge? && steps[n].w == w ==>
      !Overdue(steps[..n], w, steps[n].now, steps[n].staleAfter)
  }

  predicate Reaps(pc: Pc, w: Worker) {
    pc == Judged(w) || (pc.Sweeping? && pc.w == w && pc.reaping) || (pc.Holding? && pc.w == w && pc.reaping)
  }

  /** The thread is on its way to take jobs from `w`. */
  predicate Touches(pc: Pc, w: Worker) {
    pc == Judged(w) || (pc.Sweeping? && pc.w == w) || (pc.Holding? && pc.w == w)
  }

  lemma PlainPc(x: World, s: Step, w: Worker, u: Thread)
    requires MovesOnly(s) || WritesOnly(s)
    requires s.Judge? && s.w == w ==> !Stale(x.db, w, s.now, s.staleAfter)
    ensures Reaps(PcOf(Apply(x, s), u), w) ==> Reaps(PcOf(x, u), w)
    ensures !(s.Requeue? && s.w == w) && Touches(PcOf(Apply(x, s), u), w) ==> Touches(PcOf(x, u), w)
  {
    hide Apply, Stale;
    ApplyPlain(x, s);
    if WritesOnly(s) { hide DoWrite; }
  }

  lemma SweepPc(x: World, s: Step, w: Worker, u: Thread)
    requires s.TakeNext? || s.TakeUnseen? || s.GiveBack? || s.GiveBackFailed? || s.EndSweep? || s.Crash?
    ensures Reaps(PcOf(Apply(x, s), u), w) ==> Reaps(PcOf(x, u), w)
    ensures Touches(PcOf(Apply(x, s), u), w) ==> Touches(PcOf(x, u), w)
  {
    hide Apply, Take, RPush;
    ApplySweep(x, s);
  }

  lemma OtherPc(x: World, s: Step, w: Worker, u: Thread)
    requires !MovesOnly(s) && !WritesOnly(s)
    requires !(s.TakeNext? || s.TakeUnseen? || s.GiveBack? || s.GiveBackFailed? || s.EndSweep? || s.Crash?)
    ensures Reaps(PcOf(Apply(x, s), u), w) ==> Reaps(PcOf(x, u), w)
    ensures Touches(PcOf(Apply(x, s), u), w) ==> Touches(PcOf(x, u), w)
  {
    hide Apply, Publish, Republication, HashOf, DoPop, DoAck, DoBury, DoCancel, Unbury, Move, Take, RPush;
    ApplyQueue(x, s);
    ApplyDead(x, s);
  }

  /** Only a verdict or a RequeueProcessing call sends a thread after `w`. */
  lemma StepPc(x: World, s: Step, w: Worker, u: Thread)
    requires s.Judge? && s.w == w ==> !Stale(x.db, w, s.now, s.staleAfter)
    ensures Reaps(PcOf(Apply(x, s), u), w) ==> Reaps(PcOf(x, u), w)
    ensures !(s.Requeue? && s.w == w) && Touches(PcOf(Apply(x, s), u), w) ==> Touches(PcOf(x, u), w)
  {
    hide Apply, Stale, Reaps, Touches, PcOf;
    if MovesOnly(s) || WritesOnly(s) {
      PlainPc(x, s, w, u);
    } else if s.TakeNext? || s.TakeUnseen? || s.GiveBack? || s.GiveBackFailed? || s.EndSweep? || s.Crash? {
      SweepPc(x, s, w, u);
    } else {
      OtherPc(x, s, w, u);
    }
  }

  lemma InTimeStep(steps: seq<Step>, w: Worker)
    requires steps != [] && InTime(steps, w)
    ensures var n := |steps| - 1; var s := steps[n];
            && InTime(steps[..n], w)
            && (s.Judge? && s.w == w ==> !Stale(Run(START, steps[..n]).db, w, s.now, s.staleAfter))
  {
    var n := |steps| - 1;
    RegistrationIsLast(steps[..n], w);
    hide Run, Overdue;
    forall m | 0 <= m < n && steps[..n][m].Judge? && steps[..n][m].w == w
      ensures !Overdue(steps[..n][..m], w, steps[..n][m].now, steps[..n][m].staleAfter)
    {
      assert steps[..n][..m] == steps[..m] && steps[..n][m] == steps[m];
    }
    if steps[n].Judge? && steps[n].w == w {
      assert !Overdue(steps[..n], w, steps[n].now, steps[n].staleAfter);
      NotOverdue(steps[..n], w, steps[n].now, steps[n].staleAfter);
    }
  }

  lemma NotOverdue(steps: seq<Step>, w: Worker, now: int, staleAfter: int)
    requires !Overdue(steps, w, now, staleAfter)
    ensures !Stale(Run(START, steps).db, w, now, staleAfter)
  {
    RegistrationIsLast(steps, w);
    hide Run, LastRegistration;
  }

  /** A worker whose heartbeat is never overdue when a reaper asks is never reaped. */
  lemma {:induction false} HeartbeatProtects(steps: seq<Step>, w: Worker)
    requires InTime(steps, w)
    ensures forall t :: !Reaps(PcOf(Run(START, steps), t), w)
  {
    hide Apply, InTime, Stale, Reaps;
    if steps == [] {
      forall t ensures !Reaps(PcOf(START, t), w) { IdleIsHarmless(t, w); }
    } else {
      var n := |steps| - 1;
      InTimeStep(steps, w);
      HeartbeatProtects(steps[..n], w);
      forall t ensures !Reaps(PcOf(Run(START, steps), t), w) {
        StepPc(Run(START, steps[..n]), steps[n], w, t);
      }
    }
  }

  lemma IdleIsHarmless(t: Thread, w: Worker)
    ensures !Reaps(PcOf(START, t), w) && !Touches(PcOf(START, t), w)
  {}

  // A live worker's list is its own doing

  /** Nobody calls RequeueProcessing on worker `w`. */
  predicate LeftAlone(steps: seq<Step>, w: Worker) {
    forall n :: 0 <= n < |steps| ==> !(steps[n].Requeue? && steps[n].w == w)
  }

  /** The list that worker `w`'s own pops and acks alone would give. */
  function OwnList(steps: seq<Step>, w: Worker): seq<Id> {
    if steps == [] then []
    else
      var n := |steps| - 1;
      var list, s := OwnList(steps[..n], w), steps[n];
      if s.Ack? && s.w == w then RemoveFirst(list, s.id) else list + PoppedBy(Run(START, steps[..n]), s, w)
  }

  lemma OwnAck(x: World, w: Worker, id: Id)
    ensures Proc(DoAck(x, w, id).db, w) == RemoveFirst(Proc(x.db, w), id)
  {
    if id !in Proc(x.db, w) { RemoveAbsent(Proc(x.db, w), id); }
  }

  lemma OwnStep(x: World, s: Step, w: Worker)
    requires forall t :: !Touches(PcOf(x, t), w)
    ensures Proc(Apply(x, s).db, w)
         == if s.Ack? && s.w == w then RemoveFirst(Proc(x.db, w), s.id) else Proc(x.db, w) + PoppedBy(x, s, w)
  {
    hide Apply, Proc, DoPop, DoAck, DoTake, DoTakeUnseen, RemoveFirst, Loses, Touches;
    ApplyQueue(x, s);
    ApplySweep(x, s);
    if s.Pop? {
      PopList(x, s.w, w);
    } else if s.Ack? {
      AckLoses(x, s.w, s.id, w);
      OwnAck(x, s.w, s.id);
    } else if s.TakeNext? || s.TakeUnseen? {
      SweepLoses(x, s.t, w);
    } else {
      ListKept(x, s, w);
    }
  }

  /** As long as a worker heartbeats in time and nobody requeues its jobs by hand, its list
      is exactly its own pops less its own acks, whatever the others do. */
  lemma {:induction false} ListIsOwn(steps: seq<Step>, w: Worker)
    requires InTime(steps, w) && LeftAlone(steps, w)
    ensures forall t :: !Touches(PcOf(Run(START, steps), t), w)
    ensures Proc(Run(START, steps).db, w) == OwnList(steps, w)
  {
    hide Apply, InTime, Stale, Touches;
    if steps == [] {
      forall t ensures !Touches(PcOf(START, t), w) { IdleIsHarmless(t, w); }
    } else {
      var n := |steps| - 1;
      InTimeStep(steps, w);
      ListIsOwn(steps[..n], w);
      OwnStep(Run(START, steps[..n]), steps[n], w);
      forall t ensures !Touches(PcOf(Run(START, steps), t), w) {
        StepPc(Run(START, steps[..n]), steps[n], w, t);
      }
    }
  }
}
