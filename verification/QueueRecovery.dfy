/** What reapers guarantee about a dead worker's list, and what a falsely reaped worker
    cannot do to the worker that picked its job up again. */
module QueueRecovery {
  import opened Text
  import opened RedisStore
  import opened Books
  import opened QueueMachine
  import opened QueueConservation

  // Which steps touch what

  predicate MovesCounter(s: Step) {
    s.Requeue? || s.Judge? || s.Snapshot? || s.TakeFailed? || s.GiveBack? || s.GiveBackFailed?
    || s.EndSweep? || s.Crash? || s.RetryRemove?
  }

  /** Steps that move no program counter and at most append to the list of a popper. */
  predicate Quiet(s: Step) {
    Bystander(s) || s.Enqueue? || s.Admit? || s.PushJob? || s.Pop? || s.CancelJob?
  }

  lemma QuietFrame(x: World, s: Step, w: Worker)
    requires Quiet(s) && s != Pop(w)
    ensures Apply(x, s).threads == x.threads && Proc(Apply(x, s).db, w) == Proc(x.db, w)
  {
    hide DoMove, DoWrite, DoBury, DoUnbury, DoUnburyUnseen, DoGiveBackFailed;
    hide DoAck, DoTake, DoTakeUnseen, DoGiveBack, LoseHand, DoCancel, DoEndSweep, DoLoad, DoRepublish;
    hide Publish, Credit;
    if Bystander(s) {
      hide Apply;
      BystanderAccounts(x, s);
    }
  }

  /** The thread is at work on `w`'s processing list, or about to be. */
  predicate Targets(pc: Pc, w: Worker) {
    (pc.Judged? || pc.Sweeping? || pc.Holding?) && pc.w == w
  }

  predicate Untouched(x: World, w: Worker) {
    forall t :: t in x.threads ==> !Targets(x.threads[t], w)
  }

  /** Steps of reapers, requeuers and retriers. */
  predicate ThreadStep(s: Step) {
    MovesCounter(s) || s.TakeNext? || s.TakeUnseen? || s.RetryLoad? || s.RetryPublish?
  }

  lemma CounterUntouched(x: World, s: Step, w: Worker)
    requires Untouched(x, w) && MovesCounter(s) && !(s.Judge? && s.w == w) && !(s.Requeue? && s.w == w)
    ensures Untouched(Apply(x, s), w) && Proc(Apply(x, s).db, w) == Proc(x.db, w)
  {
    hide DoPop, DoAck, DoTake, DoTakeUnseen, DoCancel, DoLoad, DoRepublish;
    hide Stale, Credit, RemoveFirst, Publish;
  }

  lemma TakeUntouched(x: World, s: Step, w: Worker)
    requires Untouched(x, w) && (s.TakeNext? || s.TakeUnseen?)
    ensures Untouched(Apply(x, s), w) && Proc(Apply(x, s).db, w) == Proc(x.db, w)
  {
    hide Apply;
    ApplySweep(x, s);
    hide RemoveFirst, Credit;
  }

  lemma RetryUntouched(x: World, s: Step, w: Worker)
    requires Untouched(x, w) && (s.RetryLoad? || s.RetryPublish?)
    ensures Untouched(Apply(x, s), w) && Proc(Apply(x, s).db, w) == Proc(x.db, w)
  {
    hide Republication, Publish;
  }

  /** Only a thread that targets `w` can touch its list, and only a verdict on `w` or a
      requeue from `w` makes a thread target it. */
  lemma ThreadUntouched(x: World, s: Step, w: Worker)
    requires Untouched(x, w) && ThreadStep(s) && !(s.Judge? && s.w == w) && !(s.Requeue? && s.w == w)
    ensures Untouched(Apply(x, s), w) && Proc(Apply(x, s).db, w) == Proc(x.db, w)
  {
    hide Untouched, Apply;
    if MovesCounter(s) { CounterUntouched(x, s, w); }
    else if s.TakeNext? || s.TakeUnseen? { TakeUntouched(x, s, w); }
    else { RetryUntouched(x, s, w); }
  }

  // A held copy stays with its holder

  /** Nobody judges `w` stale or requeues from it, and `w` does not ack `id`. */
  predicate LeavesAlone(s: Step, w: Worker, id: Id) {
    !(s.Judge? && s.w == w) && !(s.Requeue? && s.w == w) && s != Ack(w, id)
  }

  lemma CountKept(db: Redis, v: Worker, a: Id, w: Worker, id: Id)
    requires v != w || a != id
    ensures Count(Proc(Take(db, v, a), w), id) >= Count(Proc(db, w), id)
  {
    CountRemove(Proc(db, v), a, id);
  }

  lemma StepLeavesAlone(x: World, s: Step, w: Worker, id: Id)
    requires Untouched(x, w) && LeavesAlone(s, w, id)
    ensures Untouched(Apply(x, s), w)
    ensures Count(Proc(Apply(x, s).db, w), id) >= Count(Proc(x.db, w), id)
  {
    hide Untouched, Count;
    if s.Pop? {
      if x.db.queue != [] { CountAppend(Proc(x.db, s.w), x.db.queue[0], id); }
      SameThreads(x, Apply(x, s), w);
    } else if s.Ack? {
      if s.w == w { CountKept(x.db, w, s.id, w, id); } else { LateAck(x, s.w, s.id, w); }
      SameThreads(x, Apply(x, s), w);
    } else {
      hide Apply;
      if Quiet(s) {
        QuietFrame(x, s, w);
        SameThreads(x, Apply(x, s), w);
      } else {
        ThreadUntouched(x, s, w);
      }
    }
  }

  lemma SameThreads(x: World, y: World, w: Worker)
    requires Untouched(x, w) && y.threads == x.threads
    ensures Untouched(y, w)
  {}

  /** Whatever other workers ack, late or not, and whatever reapers do to
      other workers, the copies of a job in this worker's list stay there until this
      worker acks them or is itself requeued. */
  lemma {:induction false} HeldCopySurvives(x: World, steps: seq<Step>, w: Worker, id: Id)
    requires Untouched(x, w)
    requires forall i :: 0 <= i < |steps| ==> LeavesAlone(steps[i], w, id)
    ensures var y := Run(x, steps);
            Untouched(y, w) && multiset(Proc(y.db, w))[id] >= multiset(Proc(x.db, w))[id]
  {
    hide Apply, Untouched;
    if steps != [] {
      var n := |steps| - 1;
      HeldCopySurvives(x, steps[..n], w, id);
      StepLeavesAlone(Run(x, steps[..n]), steps[n], w, id);
    }
  }

  // Dead-worker recovery

  /** The sweep of `w` by `t` has not finished; all that is left in the list is still to do. */
  predicate Covering(x: World, t: Thread, w: Worker) {
    var pc := PcOf(x, t);
    || pc == Judged(w)
    || ((pc.Sweeping? || pc.Holding?) && pc.w == w && multiset(Proc(x.db, w)) <= multiset(pc.todo))
  }

  predicate Draining(x: World, t: Thread, w: Worker) {
    Covering(x, t, w) || Proc(x.db, w) == []
  }

  /** `w` pops nothing more; thread `t` neither crashes nor meets a Redis error before its LREM. */
  predicate LetsDrain(s: Step, t: Thread, w: Worker) {
    s != Pop(w) && s != Crash(t) && s != TakeFailed(t)
  }

  lemma {:induction false} RemoveSub(s: seq<Id>, x: Id)
    ensures multiset(RemoveFirst(s, x)) == multiset(s) - multiset{x}
  {
    if s != [] {
      assert s == [s[0]] + s[1..];
      if s[0] != x { RemoveSub(s[1..], x); }
    }
  }

  lemma ShrinkDrains(x: World, y: World, a: Id, t: Thread, w: Worker)
    requires Draining(x, t, w) && PcOf(y, t) == PcOf(x, t)
    requires Proc(y.db, w) == RemoveFirst(Proc(x.db, w), a)
    ensures Draining(y, t, w)
  {
    RemoveSub(Proc(x.db, w), a);
  }

  lemma TakeDrains(x: World, t: Thread, w: Worker)
    requires Draining(x, t, w) && PcOf(x, t).Sweeping? && PcOf(x, t).todo != [] && PcOf(x, t).w == w
    ensures var todo := PcOf(x, t).todo;
            && (todo[0] in Proc(x.db, w) ==> multiset(RemoveFirst(Proc(x.db, w), todo[0])) <= multiset(todo[1..]))
            && (todo[0] !in Proc(x.db, w) && Covering(x, t, w) ==> multiset(Proc(x.db, w)) <= multiset(todo[1..]))
  {
    var todo, list := PcOf(x, t).todo, Proc(x.db, w);
    assert todo == [todo[0]] + todo[1..];
    RemoveSub(list, todo[0]);
    if todo[0] !in list && Covering(x, t, w) {
      forall id ensures multiset(list)[id] <= multiset(todo[1..])[id] {
        assert multiset(list)[todo[0]] == 0;
        assert multiset(list)[id] <= multiset(todo)[id];
      }
    }
  }

  lemma RetryDrains(x: World, u: Thread, t: Thread, w: Worker)
    requires Draining(x, t, w)
    ensures Draining(DoLoad(x, u), t, w) && Draining(DoRepublish(x, u), t, w)
  {
    hide Republication;
  }

  lemma OtherTakeDrains(x: World, s: Step, t: Thread, w: Worker)
    requires Draining(x, t, w) && (s.TakeNext? || s.TakeUnseen?) && s.t != t
    ensures Draining(Apply(x, s), t, w)
  {
    hide Apply;
    ApplySweep(x, s);
    hide RemoveFirst, Credit;
    var y, pc := Apply(x, s), PcOf(x, s.t);
    if pc.Sweeping? && pc.todo != [] && pc.w == w && pc.todo[0] in Proc(x.db, w) {
      ShrinkDrains(x, y, pc.todo[0], t, w);
    }
  }

  lemma OwnTakeDrains(x: World, s: Step, t: Thread, w: Worker)
    requires Draining(x, t, w) && (s.TakeNext? || s.TakeUnseen?) && s.t == t
    ensures Draining(Apply(x, s), t, w)
  {
    hide Apply;
    ApplySweep(x, s);
    hide RemoveFirst, Credit;
    var pc := PcOf(x, t);
    if pc.Sweeping? && pc.todo != [] && pc.w == w { TakeDrains(x, t, w); }
  }

  lemma FrameDrains(x: World, y: World, t: Thread, w: Worker)
    requires Draining(x, t, w) && PcOf(y, t) == PcOf(x, t) && Proc(y.db, w) == Proc(x.db, w)
    ensures Draining(y, t, w)
  {}

  lemma OtherCounterDrains(x: World, s: Step, t: Thread, w: Worker)
    requires Draining(x, t, w) && MovesCounter(s) && s.t != t
    ensures Draining(Apply(x, s), t, w)
  {
    hide Apply, DoMove, DoGiveBack, LoseHand, DoGiveBackFailed, DoEndSweep, DoUnbury, Draining, Covering;
    ApplySweep(x, s);
    ApplyPlain(x, s);
    ApplyDead(x, s);
    FrameDrains(x, Apply(x, s), t, w);
  }

  lemma OwnCounterDrains(x: World, s: Step, t: Thread, w: Worker)
    requires Draining(x, t, w) && LetsDrain(s, t, w) && MovesCounter(s) && s.t == t
    ensures Draining(Apply(x, s), t, w)
  {
    hide DoPop, DoAck, DoTake, DoTakeUnseen, DoCancel, DoLoad, DoRepublish;
    hide Stale, Credit, RemoveFirst, Publish;
    NothingLeft(Proc(x.db, w));
  }

  lemma NothingLeft(list: seq<Id>)
    ensures multiset(list) <= multiset{} ==> list == []
  {
    if list != [] { assert list[0] in multiset(list); }
  }

  lemma QuietDrains(x: World, s: Step, t: Thread, w: Worker)
    requires Draining(x, t, w) && Quiet(s) && s != Pop(w)
    ensures Draining(Apply(x, s), t, w)
  {
    hide Draining, Apply;
    QuietFrame(x, s, w);
    FrameDrains(x, Apply(x, s), t, w);
  }

  lemma StepDrains(x: World, s: Step, t: Thread, w: Worker)
    requires Draining(x, t, w) && LetsDrain(s, t, w)
    ensures Draining(Apply(x, s), t, w)
  {
    hide Draining;
    if Quiet(s) {
      QuietDrains(x, s, t, w);
    } else if s.RetryLoad? || s.RetryPublish? {
      RetryDrains(x, s.t, t, w);
    } else if s.Ack? {
      if s.w == w && s.id in Proc(x.db, w) { ShrinkDrains(x, Apply(x, s), s.id, t, w); }
      else { FrameDrains(x, Apply(x, s), t, w); }
    } else if MovesCounter(s) {
      if s.t == t { OwnCounterDrains(x, s, t, w); } else { OtherCounterDrains(x, s, t, w); }
    } else if s.t == t {
      OwnTakeDrains(x, s, t, w);
    } else {
      OtherTakeDrains(x, s, t, w);
    }
  }

  /** With any number of reapers and other clients interleaved: once a reaper has judged
      `w` dead, `w`'s list is empty as soon as that reaper's sweep is over. */
  lemma {:induction false} SweepDrains(x: World, steps: seq<Step>, t: Thread, w: Worker)
    requires Draining(x, t, w)
    requires forall i :: 0 <= i < |steps| ==> LetsDrain(steps[i], t, w)
    ensures Draining(Run(x, steps), t, w)
  {
    hide Apply, Draining;
    if steps != [] {
      var n := |steps| - 1;
      SweepDrains(x, steps[..n], t, w);
      StepDrains(Run(x, steps[..n]), steps[n], t, w);
    }
  }

  // Exactly once

  /** The worker is silent and no command fails, no client dies. */
  predicate Faultless(s: Step, w: Worker) {
    s != Pop(w) && !(s.Ack? && s.w == w)
    && !s.Crash? && !s.TakeFailed? && !s.TakeUnseen? && !s.GiveBackFailed?
  }

  /** The parts of the worker's account that only the worker, a crash or an error can move. */
  predicate SameDebts(x: World, y: World, w: Worker) {
    At(y.log.popped, w) == At(x.log.popped, w) && At(y.log.acked, w) == At(x.log.acked, w)
    && At(y.log.lost, w) == At(x.log.lost, w)
  }

  lemma StepFaultless(x: World, s: Step, w: Worker)
    requires Faultless(s, w)
    ensures SameDebts(x, Apply(x, s), w)
  {
    hide DoPop, DoAck, DoTake, DoTakeUnseen, DoGiveBack, LoseHand, DoCancel, DoEndSweep, DoLoad, DoRepublish;
    hide DoMove, DoWrite, DoBury, DoUnbury, DoUnburyUnseen, DoGiveBackFailed, Published, Publish, At;
    if s.Pop? || s.Ack? {
      OwnDebts(x, s, w);
    } else if Bystander(s) {
      hide Apply;
      BystanderAccounts(x, s);
    }
  }

  lemma OwnDebts(x: World, s: Step, w: Worker)
    requires (s.Pop? || s.Ack?) && s.w != w
    ensures SameDebts(x, Apply(x, s), w)
  {
    hide Apply, RemoveFirst;
    ApplyQueue(x, s);
  }

  lemma {:induction false} RunFaultless(x: World, steps: seq<Step>, w: Worker)
    requires forall i :: 0 <= i < |steps| ==> Faultless(steps[i], w)
    ensures SameDebts(x, Run(x, steps), w)
  {
    hide Apply;
    if steps != [] {
      var n := |steps| - 1;
      RunFaultless(x, steps[..n], w);
      StepFaultless(Run(x, steps[..n]), steps[n], w);
    }
  }

  /** The jobs of `w` in a requeuer's hand. */
  ghost function HandsOn(x: World, w: Worker): multiset<Id> { Total(HandBook(x.threads, Emptying(w))) }

  /** Dead-worker recovery with any number of reapers interleaved, some perhaps at work on
      `w` already: from the moment reaper `t` judges `w` dead, over any run without faults in
      which `w` is silent, once `t` is done with `w`, the list of `w` is empty, and each of
      its entries, like each job of `w` then in a hand, has been pushed back once or is still
      in a hand. */
  lemma DeadWorkerRecovered(before: seq<Step>, steps: seq<Step>, t: Thread, w: Worker)
    requires PcOf(Run(START, before), t) == Judged(w)
    requires forall i :: 0 <= i < |steps| ==> Faultless(steps[i], w)
    requires !Targets(PcOf(Run(START, before + steps), t), w)
    ensures var x, y := Run(START, before), Run(START, before + steps);
            && Proc(y.db, w) == []
            && At(y.log.requeued, w) + HandsOn(y, w) == At(x.log.requeued, w) + multiset(Proc(x.db, w)) + HandsOn(x, w)
  {
    hide Run;
    var x, y := Run(START, before), Run(START, before + steps);
    RunConcat(START, before, steps);
    SweepDrains(x, steps, t, w);
    RunFaultless(x, steps, w);
    assert Proc(y.db, w) == [];
    hide Accounted, Balanced, HandsOn, SameDebts, Faultless, Draining;
    forall id ensures (At(y.log.requeued, w) + HandsOn(y, w))[id]
                   == (At(x.log.requeued, w) + multiset(Proc(x.db, w)) + HandsOn(x, w))[id] {
      RunAccounted(before, w, id);
      RunAccounted(before + steps, w, id);
      SettledAt(x, y, w, id);
    }
  }

  lemma SettledAt(x: World, y: World, w: Worker, id: Id)
    requires Accounted(x, w, id) && Accounted(y, w, id) && SameDebts(x, y, w) && Proc(y.db, w) == []
    ensures (At(y.log.requeued, w) + HandsOn(y, w))[id]
         == (At(x.log.requeued, w) + multiset(Proc(x.db, w)) + HandsOn(x, w))[id]
  {}

  /** So with no job of `w` in any hand before and after, each entry of the list has been
      pushed back exactly once. */
  lemma RecoveredExactlyOnce(before: seq<Step>, steps: seq<Step>, t: Thread, w: Worker)
    requires PcOf(Run(START, before), t) == Judged(w) && HandsOn(Run(START, before), w) == multiset{}
    requires forall i :: 0 <= i < |steps| ==> Faultless(steps[i], w)
    requires !Targets(PcOf(Run(START, before + steps), t), w) && HandsOn(Run(START, before + steps), w) == multiset{}
    ensures var x, y := Run(START, before), Run(START, before + steps);
            Proc(y.db, w) == [] && At(y.log.requeued, w) == At(x.log.requeued, w) + multiset(Proc(x.db, w))
  {
    hide Run, HandsOn;
    DeadWorkerRecovered(before, steps, t, w);
    var x, y := Run(START, before), Run(START, before + steps);
    assert At(y.log.requeued, w) + HandsOn(y, w) == At(y.log.requeued, w);
  }

  // The one way a job is stranded

  /** The worker is unregistered, nobody is emptying its list and it stays silent. */
  predicate Forgotten(x: World, w: Worker) {
    w !in x.db.workers && Untouched(x, w)
  }

  predicate Ignores(s: Step, w: Worker) {
    s != Pop(w) && !(s.Ack? && s.w == w) && !(s.Register? && s.w == w) && !(s.Requeue? && s.w == w)
  }

  lemma StepWorkers(x: World, s: Step, w: Worker)
    requires w !in x.db.workers && !(s.Register? && s.w == w)
    ensures w !in Apply(x, s).db.workers
  {
    if s.Register? || s.Unregister? || s.EndSweep? || s.SetLease? || s.ClearLease? {
      hide PcOf;
    } else {
      hide Apply;
      RegistryKept(x, s);
    }
  }

  lemma StepForgets(x: World, s: Step, w: Worker)
    requires Forgotten(x, w) && Ignores(s, w)
    ensures Forgotten(Apply(x, s), w) && Proc(Apply(x, s).db, w) == Proc(x.db, w)
  {
    hide Untouched;
    StepWorkers(x, s, w);
    if s.Ack? {
      SameThreads(x, Apply(x, s), w);
    } else if s.Judge? && s.w == w {
      assert Apply(x, s) == x;
    } else {
      hide Apply;
      if Quiet(s) {
        QuietFrame(x, s, w);
        SameThreads(x, Apply(x, s), w);
      } else {
        ThreadUntouched(x, s, w);
      }
    }
  }

  /** reapWorker deletes the registration even when a requeue failed. From then on no
      reaper ever looks at the list again: it stays exactly as it is. */
  lemma {:induction false} ForgottenForever(x: World, steps: seq<Step>, w: Worker)
    requires Forgotten(x, w)
    requires forall i :: 0 <= i < |steps| ==> Ignores(steps[i], w)
    ensures Forgotten(Run(x, steps), w) && Proc(Run(x, steps).db, w) == Proc(x.db, w)
  {
    hide Apply, Forgotten;
    if steps != [] {
      var n := |steps| - 1;
      ForgottenForever(x, steps[..n], w);
      StepForgets(Run(x, steps[..n]), steps[n], w);
    }
  }

  /** What becomes of one listed job in a sweep: requeued; left in place by a failed LREM;
      removed by an LREM whose reply was lost; or removed and then not pushed. */
  datatype Fate = Back | Stuck | Unseen | Dropped

  function FateSteps(t: Thread, fate: Fate): seq<Step> {
    match fate
    case Back => [TakeNext(t), GiveBack(t)]
    case Stuck => [TakeFailed(t)]
    case Unseen => [TakeUnseen(t)]
    case Dropped => [TakeNext(t), GiveBackFailed(t)]
  }

  function SweepSteps(t: Thread, fates: seq<Fate>): seq<Step> {
    if fates == [] then [] else FateSteps(t, fates[0]) + SweepSteps(t, fates[1..])
  }

  /** The entries of `list` that met `fate`, in order. */
  function Meeting(list: seq<Id>, fates: seq<Fate>, fate: Fate): seq<Id>
    requires |list| == |fates|
  {
    if list == [] then []
    else (if fates[0] == fate then [list[0]] else []) + Meeting(list[1..], fates[1..], fate)
  }

  /** Between two states of an uninterrupted sweep of `w` by `t`, other threads and the
      registrations stay as they are. */
  ghost predicate Alone(x: World, y: World, t: Thread) {
    (forall u :: u != t ==> PcOf(y, u) == PcOf(x, u)) && y.db.workers == x.db.workers
  }

  /** From `x` to `y` the sweep of `w` by `t` has pushed `pushed`; `todo` is still to do and
      `left` is what the list holds. */
  ghost predicate Swept(x: World, y: World, t: Thread, w: Worker, todo: seq<Id>, pushed: seq<Id>, left: multiset<Id>) {
    && PcOf(y, t) == Sweeping(w, todo, true) && Alone(x, y, t)
    && y.db.queue == x.db.queue + pushed && multiset(Proc(y.db, w)) == left
  }

  lemma SweptTrans(x: World, y: World, z: World, t: Thread, w: Worker, todo: seq<Id>, todo': seq<Id>,
                   p: seq<Id>, p': seq<Id>, left: multiset<Id>, left': multiset<Id>)
    requires Swept(x, y, t, w, todo, p, left) && Swept(y, z, t, w, todo', p', left')
    ensures Swept(x, z, t, w, todo', p + p', left')
  {}

  lemma TakeSwept(x: World, t: Thread, w: Worker, todo: seq<Id>)
    requires PcOf(x, t) == Sweeping(w, todo, true) && todo != [] && todo[0] in Proc(x.db, w)
    ensures var y := Apply(x, TakeNext(t));
            && PcOf(y, t) == Holding(w, todo[0], todo[1..], true) && Alone(x, y, t) && y.db.queue == x.db.queue
            && multiset(Proc(y.db, w)) == multiset(Proc(x.db, w)) - multiset{todo[0]}
  {
    RemoveSub(Proc(x.db, w), todo[0]);
    hide RemoveFirst;
  }

  lemma GiveBackSwept(x: World, t: Thread, w: Worker, j: Id, todo: seq<Id>)
    requires PcOf(x, t) == Holding(w, j, todo, true)
    ensures Swept(x, Apply(x, GiveBack(t)), t, w, todo, [j], multiset(Proc(x.db, w)))
    ensures Swept(x, Apply(x, GiveBackFailed(t)), t, w, todo, [], multiset(Proc(x.db, w)))
  {
    hide Credit;
  }

  lemma NoTakeSwept(x: World, t: Thread, w: Worker, todo: seq<Id>)
    requires PcOf(x, t) == Sweeping(w, todo, true) && todo != [] && todo[0] in Proc(x.db, w)
    ensures Swept(x, Apply(x, TakeFailed(t)), t, w, todo[1..], [], multiset(Proc(x.db, w)))
    ensures Swept(x, Apply(x, TakeUnseen(t)), t, w, todo[1..], [], multiset(Proc(x.db, w)) - multiset{todo[0]})
  {
    RemoveSub(Proc(x.db, w), todo[0]);
    hide RemoveFirst, Credit;
  }

  /** What the list holds after one job has met its fate. */
  function LeftAfter(list: seq<Id>, j: Id, fate: Fate): multiset<Id> {
    if fate.Stuck? then multiset(list) else multiset(list) - multiset{j}
  }

  function PushedAfter(j: Id, fate: Fate): seq<Id> { if fate.Back? then [j] else [] }

  lemma FateSwept(x: World, t: Thread, w: Worker, todo: seq<Id>, fate: Fate)
    requires PcOf(x, t) == Sweeping(w, todo, true) && todo != [] && todo[0] in Proc(x.db, w)
    ensures Swept(x, Run(x, FateSteps(t, fate)), t, w, todo[1..], PushedAfter(todo[0], fate),
                  LeftAfter(Proc(x.db, w), todo[0], fate))
  {
    hide Apply, Run;
    if fate.Stuck? || fate.Unseen? {
      RunOne(x, if fate.Stuck? then TakeFailed(t) else TakeUnseen(t));
      NoTakeSwept(x, t, w, todo);
    } else {
      RunTwo(x, TakeNext(t), if fate.Back? then GiveBack(t) else GiveBackFailed(t));
      TakeSwept(x, t, w, todo);
      GiveBackSwept(Apply(x, TakeNext(t)), t, w, todo[0], todo[1..]);
    }
  }

  function StuckAfter(stuck: multiset<Id>, j: Id, fate: Fate): multiset<Id> {
    if fate.Stuck? then stuck + multiset{j} else stuck
  }

  lemma LeftSplits(list: seq<Id>, todo: seq<Id>, stuck: multiset<Id>, fate: Fate)
    requires todo != [] && multiset(list) == multiset(todo) + stuck
    ensures todo[0] in list && LeftAfter(list, todo[0], fate) == multiset(todo[1..]) + StuckAfter(stuck, todo[0], fate)
  {
    assert todo == [todo[0]] + todo[1..];
    assert todo[0] in multiset(list);
  }

  lemma MeetingFirst(todo: seq<Id>, fates: seq<Fate>, stuck: multiset<Id>)
    requires |fates| == |todo| && todo != []
    ensures Meeting(todo, fates, Back) == PushedAfter(todo[0], fates[0]) + Meeting(todo[1..], fates[1..], Back)
    ensures multiset(Meeting(todo, fates, Stuck)) + stuck
         == multiset(Meeting(todo[1..], fates[1..], Stuck)) + StuckAfter(stuck, todo[0], fates[0])
  {}

  /** Whatever fails on the way, the list holds what is still to do and what got stuck. */
  lemma {:induction false} SweepFates(x: World, t: Thread, w: Worker, todo: seq<Id>, fates: seq<Fate>,
                                      stuck: multiset<Id>)
    requires |fates| == |todo| && PcOf(x, t) == Sweeping(w, todo, true)
    requires multiset(Proc(x.db, w)) == multiset(todo) + stuck
    ensures Swept(x, Run(x, SweepSteps(t, fates)), t, w, [], Meeting(todo, fates, Back),
                  multiset(Meeting(todo, fates, Stuck)) + stuck)
    decreases |todo|
  {
    if todo == [] {
      assert multiset(todo) + stuck == stuck;
    } else {
      hide Apply, Run, FateSteps, LeftAfter, StuckAfter, PushedAfter, Meeting, PcOf, Proc;
      LeftSplits(Proc(x.db, w), todo, stuck, fates[0]);
      FateSwept(x, t, w, todo, fates[0]);
      RunConcat(x, FateSteps(t, fates[0]), SweepSteps(t, fates[1..]));
      var y := Run(x, FateSteps(t, fates[0]));
      SweepFates(y, t, w, todo[1..], fates[1..], StuckAfter(stuck, todo[0], fates[0]));
      hide Swept;
      SweptTrans(x, y, Run(y, SweepSteps(t, fates[1..])), t, w, todo[1..], [], PushedAfter(todo[0], fates[0]),
                 Meeting(todo[1..], fates[1..], Back), LeftAfter(Proc(x.db, w), todo[0], fates[0]),
                 multiset(Meeting(todo[1..], fates[1..], Stuck)) + StuckAfter(stuck, todo[0], fates[0]));
      MeetingFirst(todo, fates, stuck);
    }
  }

  lemma {:induction false} MeetingNone(list: seq<Id>, fates: seq<Fate>, fate: Fate)
    requires |list| == |fates|
    ensures Meeting(list, fates, fate) == [] <==> fate !in fates
  {
    if list != [] { MeetingNone(list[1..], fates[1..], fate); }
  }

  lemma {:induction false} MeetingAll(list: seq<Id>, fates: seq<Fate>, fate: Fate)
    requires |list| == |fates|
    ensures |Meeting(list, fates, fate)| <= |list|
    ensures Meeting(list, fates, fate) == list <==> forall k :: 0 <= k < |fates| ==> fates[k] == fate
  {
    if list != [] {
      MeetingAll(list[1..], fates[1..], fate);
      if fates[0] == fate {
        assert Meeting(list, fates, fate)[1..] == Meeting(list[1..], fates[1..], fate);
        assert (forall k :: 0 <= k < |fates| ==> fates[k] == fate)
          <==> forall k :: 0 <= k < |fates[1..]| ==> fates[1..][k] == fate;
      }
    }
  }

  lemma NothingIffEmpty(list: seq<Id>, other: seq<Id>)
    requires multiset(list) == multiset(other)
    ensures list == [] <==> other == []
  {
    if list != [] { assert list[0] in multiset(other); }
    if other != [] { assert other[0] in multiset(list); }
  }

  function ReapSteps(t: Thread, fates: seq<Fate>): seq<Step> {
    [Snapshot(t)] + SweepSteps(t, fates) + [EndSweep(t)]
  }

  /** reapWorker on any list, with any failures: the registration goes, what stays in the list
      is exactly what a failed LREM left there, what reached the queue is exactly what was
      requeued, in order. So the list is emptied exactly when no LREM failed, and every job
      is back exactly when nothing failed. */
  lemma FailedRequeueStrands(x: World, t: Thread, w: Worker, fates: seq<Fate>)
    requires PcOf(x, t) == Judged(w) && |fates| == |Proc(x.db, w)|
    ensures var y := Run(x, ReapSteps(t, fates)); var list := Proc(x.db, w);
            && w !in y.db.workers
            && multiset(Proc(y.db, w)) == multiset(Meeting(list, fates, Stuck))
            && y.db.queue == x.db.queue + Meeting(list, fates, Back)
            && (Proc(y.db, w) == [] <==> Stuck !in fates)
            && (y.db.queue == x.db.queue + list <==> forall k :: 0 <= k < |fates| ==> fates[k] == Back)
            && ((forall u :: u in x.threads && u != t ==> !Targets(x.threads[u], w)) ==> Forgotten(y, w))
  {
    hide Run, ReapSteps, Meeting, Forgotten, PcOf, Targets;
    SweepOutcome(x, t, w, fates);
    var y, list := Run(x, ReapSteps(t, fates)), Proc(x.db, w);
    NothingIffEmpty(Proc(y.db, w), Meeting(list, fates, Stuck));
    MeetingNone(list, fates, Stuck);
    MeetingAll(list, fates, Back);
    AppendSame(x.db.queue, Meeting(list, fates, Back), list);
  }

  lemma SweepOutcome(x: World, t: Thread, w: Worker, fates: seq<Fate>)
    requires PcOf(x, t) == Judged(w) && |fates| == |Proc(x.db, w)|
    ensures var y := Run(x, ReapSteps(t, fates)); var list := Proc(x.db, w);
            && w !in y.db.workers
            && multiset(Proc(y.db, w)) == multiset(Meeting(list, fates, Stuck))
            && y.db.queue == x.db.queue + Meeting(list, fates, Back)
            && ((forall u :: u in x.threads && u != t ==> !Targets(x.threads[u], w)) ==> Forgotten(y, w))
  {
    hide Run, Apply, SweepSteps, Meeting;
    var list := Proc(x.db, w);
    var x1 := Run(x, [Snapshot(t)]);
    SnapshotSwept(x, t, w);
    assert PcOf(x1, t) == Sweeping(w, list, true) && multiset(Proc(x1.db, w)) == multiset(list) + multiset{};
    hide Swept, Forgotten, PcOf, Alone, Targets, Proc;
    RunConcat(x, [Snapshot(t)], SweepSteps(t, fates));
    RunConcat(x, [Snapshot(t)] + SweepSteps(t, fates), [EndSweep(t)]);
    SweepFates(x1, t, w, list, fates, multiset{});
    var x2, stuck := Run(x1, SweepSteps(t, fates)), multiset(Meeting(list, fates, Stuck)) + multiset{};
    SweptTrans(x, x1, x2, t, w, list, [], [], Meeting(list, fates, Back), multiset(list), stuck);
    assert [] + Meeting(list, fates, Back) == Meeting(list, fates, Back);
    SweepEnds(x, x2, t, w, Meeting(list, fates, Back), stuck);
  }

  lemma SnapshotSwept(x: World, t: Thread, w: Worker)
    requires PcOf(x, t) == Judged(w)
    ensures var y := Run(x, [Snapshot(t)]);
            Swept(x, y, t, w, Proc(x.db, w), [], multiset(Proc(x.db, w))) && Proc(y.db, w) == Proc(x.db, w)
  {
    RunOne(x, Snapshot(t));
  }

  lemma SweepEnds(x: World, y: World, t: Thread, w: Worker, pushed: seq<Id>, left: multiset<Id>)
    requires Swept(x, y, t, w, [], pushed, left)
    ensures var z := Run(y, [EndSweep(t)]);
            && w !in z.db.workers && multiset(Proc(z.db, w)) == left && z.db.queue == x.db.queue + pushed
            && ((forall u :: u in x.threads && u != t ==> !Targets(x.threads[u], w)) ==> Forgotten(z, w))
  {
    RunOne(y, EndSweep(t));
    var z := Apply(y, EndSweep(t));
    if forall u :: u in x.threads && u != t ==> !Targets(x.threads[u], w) {
      forall u | u in z.threads ensures !Targets(z.threads[u], w) {
        if u != t { assert PcOf(z, u) == PcOf(y, u) == PcOf(x, u); }
      }
    }
  }

  lemma AppendSame(q: seq<Id>, a: seq<Id>, b: seq<Id>)
    ensures q + a == q + b <==> a == b
  {
    if q + a == q + b { assert a == (q + a)[|q|..] && b == (q + b)[|q|..]; }
  }
}
