/** Order and depth of the main queue over whole histories. */
module QueueOrder {
  import opened ScanJobs
  import opened RedisStore
  import opened Books
  import opened QueueMachine
  import opened QueueConservation

  /** The main queue with its history: all appends, all head pops, all cancelled entries. */
  datatype Line = Line(pushes: seq<Id>, pops: seq<Id>, queue: seq<Id>, cancelled: seq<Id>)

  function LineOf(x: World): Line {
    Line(x.log.pushes, x.log.pops, x.db.queue, x.log.cancelled)
  }

  function PushLine(l: Line, id: Id): Line {
    l.(pushes := l.pushes + [id], queue := l.queue + [id])
  }

  function PopLine(l: Line): Line
    requires l.queue != []
  {
    l.(pops := l.pops + [l.queue[0]], queue := l.queue[1..])
  }

  function CancelLine(l: Line, id: Id): Line {
    l.(queue := RemoveFirst(l.queue, id), cancelled := l.cancelled + [id])
  }

  function Last(s: seq<Id>): Id
    requires s != []
  {
    s[|s| - 1]
  }

  /** How one step can change the line. */
  predicate Moves(l: Line, m: Line) {
    || m == l
    || (m.pushes != [] && m == PushLine(l, Last(m.pushes)))
    || (l.queue != [] && m == PopLine(l))
    || (m.cancelled != [] && Last(m.cancelled) in l.queue && m == CancelLine(l, Last(m.cancelled)))
  }

  lemma CancelMoves(x: World, id: Id, at: string)
    ensures Moves(LineOf(x), LineOf(DoCancel(x, id, at)))
  {
    if id !in x.db.queue { RemoveAbsent(x.db.queue, id); }
  }

  lemma RetryMoves(x: World, t: Thread)
    ensures Moves(LineOf(x), LineOf(DoRepublish(x, t)))
  {
    hide Republication;
  }

  lemma PopMoves(x: World, w: Worker)
    ensures Moves(LineOf(x), LineOf(DoPop(x, w)))
  {}

  lemma GiveBackMoves(x: World, t: Thread)
    ensures Moves(LineOf(x), LineOf(DoGiveBack(x, t)))
  {}

  /** Steps with no part in the main queue. */
  predicate KeepsLine(s: Step) {
    Bystander(s) || s.Ack? || s.Requeue? || s.Judge? || s.Snapshot? || s.TakeNext? || s.TakeUnseen? || s.TakeFailed?
    || s.GiveBackFailed? || s.EndSweep? || s.Crash? || s.RetryRemove? || s.RetryLoad?
  }

  lemma LineKept(x: World, s: Step)
    requires KeepsLine(s)
    ensures LineOf(Apply(x, s)) == LineOf(x) && Apply(x, s).log.unlimited == x.log.unlimited
  {
    hide DoMove, DoWrite, DoBury, DoUnbury, DoUnburyUnseen, DoGiveBackFailed;
    hide DoPop, DoAck, DoTake, DoTakeUnseen, DoGiveBack, LoseHand, DoCancel, DoEndSweep, DoLoad, DoRepublish;
    hide Stale, PcOf, RemoveFirst, Published, HSet, SAdd, SRem, Bury, Publish;
    if Bystander(s) {
      hide Apply;
      BystanderAccounts(x, s);
    }
  }

  lemma StepMoves(x: World, s: Step)
    ensures Moves(LineOf(x), LineOf(Apply(x, s)))
  {
    hide DoMove, DoWrite, DoBury, DoUnbury, DoUnburyUnseen, DoGiveBackFailed;
    hide DoPop, DoAck, DoTake, DoTakeUnseen, DoGiveBack, LoseHand, DoCancel, DoEndSweep, DoLoad, DoRepublish;
    hide Publish, RemoveFirst;
    if KeepsLine(s) {
      hide Apply;
      LineKept(x, s);
    } else if s.Pop? {
      PopMoves(x, s.w);
    } else if s.GiveBack? {
      GiveBackMoves(x, s.t);
    } else if s.CancelJob? {
      CancelMoves(x, s.id, s.at);
    } else if s.RetryPublish? {
      RetryMoves(x, s.t);
    }
  }

  // First in, first out

  predicate Within(ix: seq<nat>, n: nat) { forall k :: 0 <= k < |ix| ==> ix[k] < n }

  predicate Increasing(ix: seq<nat>) { forall j, k :: 0 <= j < k < |ix| ==> ix[j] < ix[k] }

  function Pick(s: seq<Id>, ix: seq<nat>): (r: seq<Id>)
    requires Within(ix, |s|)
    ensures |r| == |ix| && forall k :: 0 <= k < |ix| ==> r[k] == s[ix[k]]
  {
    seq(|ix|, k requires 0 <= k < |ix| => s[ix[k]])
  }

  /** Each append is either at a `kept` position, in order, or at a `dropped` one: the
      kept ones are what was popped followed by what is still queued, the dropped ones
      are what cancels removed. */
  predicate Ordered(l: Line, kept: seq<nat>, dropped: seq<nat>) {
    && Within(kept, |l.pushes|) && Within(dropped, |l.pushes|) && Increasing(kept)
    && Pick(l.pushes, kept) == l.pops + l.queue
    && Pick(l.pushes, dropped) == l.cancelled
    && (forall i :: 0 <= i < |l.pushes| ==> (i in kept <==> i !in dropped))
    && |kept| + |dropped| == |l.pushes|
  }

  ghost predicate Fifo(l: Line) {
    exists kept, dropped :: Ordered(l, kept, dropped)
  }

  lemma PushOrdered(l: Line, id: Id, kept: seq<nat>, dropped: seq<nat>)
    requires Ordered(l, kept, dropped)
    ensures Ordered(PushLine(l, id), kept + [|l.pushes|], dropped)
  {
    var m, kept' := PushLine(l, id), kept + [|l.pushes|];
    assert m.pops + m.queue == (l.pops + l.queue) + [id];
    assert Pick(m.pushes, kept') == Pick(l.pushes, kept) + [id];
    assert Pick(m.pushes, dropped) == Pick(l.pushes, dropped);
  }

  lemma PopOrdered(l: Line, kept: seq<nat>, dropped: seq<nat>)
    requires Ordered(l, kept, dropped) && l.queue != []
    ensures Ordered(PopLine(l), kept, dropped)
  {
    assert PopLine(l).pops + PopLine(l).queue == l.pops + l.queue;
  }

  lemma {:induction false} RemovedAt(s: seq<Id>, x: Id) returns (i: nat)
    requires x in s
    ensures i < |s| && s[i] == x && x !in s[..i] && RemoveFirst(s, x) == s[..i] + s[i + 1..]
  {
    if s[0] == x {
      i := 0;
    } else {
      i := RemovedAt(s[1..], x);
      i := i + 1;
      assert s[..i] == [s[0]] + s[1..][..i - 1];
    }
  }

  function Without<T>(s: seq<T>, k: nat): seq<T>
    requires k < |s|
  {
    s[..k] + s[k + 1..]
  }

  lemma PickWithout(s: seq<Id>, ix: seq<nat>, k: nat)
    requires k < |ix| && Within(ix, |s|)
    ensures Within(Without(ix, k), |s|) && Pick(s, Without(ix, k)) == Without(Pick(s, ix), k)
  {}

  lemma IncreasingWithout(ix: seq<nat>, k: nat)
    requires k < |ix| && Increasing(ix)
    ensures Increasing(Without(ix, k))
  {}

  lemma WithoutBehind(a: seq<Id>, b: seq<Id>, i: nat)
    requires i < |b|
    ensures Without(a + b, |a| + i) == a + Without(b, i)
  {}

  lemma CancelOrdered(l: Line, id: Id, kept: seq<nat>, dropped: seq<nat>) returns (kept': seq<nat>, dropped': seq<nat>)
    requires Ordered(l, kept, dropped) && id in l.queue
    ensures Ordered(CancelLine(l, id), kept', dropped')
  {
    var i := RemovedAt(l.queue, id);
    var k := |l.pops| + i;
    assert |kept| == |Pick(l.pushes, kept)| == |l.pops + l.queue|;
    assert (l.pops + l.queue)[k] == id;
    kept', dropped' := Without(kept, k), dropped + [kept[k]];
    PickWithout(l.pushes, kept, k);
    IncreasingWithout(kept, k);
    WithoutBehind(l.pops, l.queue, i);
    assert Pick(l.pushes, dropped') == Pick(l.pushes, dropped) + [id];
    forall j | 0 <= j < |l.pushes| ensures j in kept' <==> j !in dropped' {
      RemovedMember(kept, k, j);
    }
    hide Pick, RemoveFirst, Increasing, Within;
  }

  lemma RemovedMember(kept: seq<nat>, k: nat, j: nat)
    requires k < |kept| && Increasing(kept)
    ensures j in Without(kept, k) <==> j in kept && j != kept[k]
  {
    if j in kept && j != kept[k] {
      var p :| 0 <= p < |kept| && kept[p] == j;
      assert if p < k then Without(kept, k)[p] == j else Without(kept, k)[p - 1] == j;
    }
  }

  lemma MovesKeepFifo(l: Line, m: Line)
    requires Fifo(l) && Moves(l, m)
    ensures Fifo(m)
  {
    hide Ordered, RemoveFirst;
    var kept, dropped :| Ordered(l, kept, dropped);
    if m.pushes != [] && m == PushLine(l, Last(m.pushes)) {
      PushOrdered(l, Last(m.pushes), kept, dropped);
    } else if l.queue != [] && m == PopLine(l) {
      PopOrdered(l, kept, dropped);
    } else if m.cancelled != [] && Last(m.cancelled) in l.queue && m == CancelLine(l, Last(m.cancelled)) {
      var k, d := CancelOrdered(l, Last(m.cancelled), kept, dropped);
    }
  }

  /** First in, first out over every history: all pops so far followed by the current
      queue are the appends in their order, missing exactly the entries that successful
      cancels took out. */
  lemma {:induction false} FirstInFirstOut(steps: seq<Step>)
    ensures Fifo(LineOf(Run(START, steps)))
  {
    hide Apply;
    if steps == [] {
      assert Ordered(LineOf(START), [], []);
    } else {
      var n := |steps| - 1;
      FirstInFirstOut(steps[..n]);
      StepMoves(Run(START, steps[..n]), steps[n]);
      MovesKeepFifo(LineOf(Run(START, steps[..n])), LineOf(Run(START, steps)));
    }
  }

  // Admission

  /** Producers that go through the depth check all use this limit, for at least one job. */
  predicate Limited(steps: seq<Step>, limit: int) {
    forall i :: 0 <= i < |steps| ==> steps[i].Admit? ==> steps[i].limit == limit && steps[i].count >= 1
  }

  predicate Bounded(x: World, limit: int) { |x.db.queue| <= limit + x.log.unlimited }

  lemma CancelBounded(x: World, id: Id, at: string)
    ensures |DoCancel(x, id, at).db.queue| <= |x.db.queue| && DoCancel(x, id, at).log.unlimited == x.log.unlimited
  {
    RemoveShrinks(x.db.queue, id);
  }

  lemma {:induction false} RemoveShrinks(s: seq<Id>, x: Id)
    ensures |RemoveFirst(s, x)| <= |s|
  {
    if s != [] { RemoveShrinks(s[1..], x); }
  }

  lemma RetryBounded(x: World, t: Thread, limit: int)
    requires Bounded(x, limit)
    ensures Bounded(DoRepublish(x, t), limit)
  {
    hide Republication;
  }

  lemma PopBounded(x: World, w: Worker)
    ensures |DoPop(x, w).db.queue| <= |x.db.queue|
  {}

  lemma GiveBackBounded(x: World, t: Thread)
    ensures |DoGiveBack(x, t).db.queue| - DoGiveBack(x, t).log.unlimited == |x.db.queue| - x.log.unlimited
  {}

  lemma StepBounded(x: World, s: Step, limit: int)
    requires limit > 0 && Bounded(x, limit)
    requires s.Admit? ==> s.limit == limit && s.count >= 1
    ensures Bounded(Apply(x, s), limit)
  {
    hide DoMove, DoWrite, DoBury, DoUnbury, DoUnburyUnseen, DoGiveBackFailed;
    hide DoPop, DoAck, DoTake, DoTakeUnseen, DoGiveBack, LoseHand, DoCancel, DoEndSweep, DoLoad, DoRepublish;
    hide Publish, RemoveFirst;
    if KeepsLine(s) {
      hide Apply;
      LineKept(x, s);
    } else if s.Pop? {
      PopBounded(x, s.w);
    } else if s.GiveBack? {
      GiveBackBounded(x, s.t);
    } else if s.CancelJob? {
      CancelBounded(x, s.id, s.at);
    } else if s.RetryPublish? {
      RetryBounded(x, s.t, limit);
    }
  }

  /** In every interleaving of limited producers with consumers, reapers and DLQ retries,
      the queue is never deeper than the limit plus the appends that passed no check. */
  lemma {:induction false} AdmissionBound(steps: seq<Step>, limit: int)
    requires limit > 0 && Limited(steps, limit)
    ensures var x := Run(START, steps); |x.db.queue| <= limit + x.log.unlimited
  {
    hide Apply;
    if steps != [] {
      var n := |steps| - 1;
      AdmissionBound(steps[..n], limit);
      assert steps[n].Admit? ==> steps[n].limit == limit && steps[n].count >= 1;
      StepBounded(Run(START, steps[..n]), steps[n], limit);
    }
  }

  /** A rejected admission leaves no trace. */
  lemma RejectionIsSilent(x: World, p: Publication, limit: int, count: int)
    ensures Apply(x, Admit(p, limit, count)) == x <==> limit > 0 && |x.db.queue| + count > limit
  {}

  /** So a rejected admission can be struck from any run without a difference to the end. */
  lemma RejectionLeavesNoTrace(before: seq<Step>, p: Publication, limit: int, count: int, later: seq<Step>)
    requires limit > 0 && |Run(START, before).db.queue| + count > limit
    ensures Run(START, before + [Admit(p, limit, count)] + later) == Run(START, before + later)
  {
    hide Run, Apply;
    var s := Admit(p, limit, count);
    RunConcat(START, before + [s], later);
    RunConcat(START, before, [s]);
    RunOne(Run(START, before), s);
    RejectionIsSilent(Run(START, before), p, limit, count);
    RunConcat(START, before, later);
  }

  // Exactly when the bound holds

  /** Producers that go through the depth check all use this limit and this count. */
  predicate Uses(steps: seq<Step>, limit: int, count: int) {
    forall i :: 0 <= i < |steps| ==> steps[i].Admit? ==> steps[i].limit == limit && steps[i].count == count
  }

  predicate Bounds(steps: seq<Step>, limit: int) { Bounded(Run(START, steps), limit) }

  function Admissions(p: Publication, limit: int, count: int, k: nat): (steps: seq<Step>)
    ensures |steps| == k && forall i :: 0 <= i < k ==> steps[i] == Admit(p, limit, count)
  {
    seq(k, _ => Admit(p, limit, count))
  }

  /** Producers that claim no job slip past the check until the queue is one too deep. */
  lemma {:induction false} ZeroCountOverflows(p: Publication, limit: int, count: int, k: nat)
    requires limit > 0 && count <= 0 && k <= limit + 1
    ensures var x := Run(START, Admissions(p, limit, count, k)); |x.db.queue| == k && x.log.unlimited == 0
  {
    hide Publish;
    if k > 0 {
      ZeroCountOverflows(p, limit, count, k - 1);
      var steps := Admissions(p, limit, count, k);
      assert steps[..k - 1] == Admissions(p, limit, count, k - 1);
      assert Run(START, steps) == Apply(Run(START, steps[..k - 1]), Admit(p, limit, count));
    }
  }

  /** The check bounds the queue in every interleaving exactly when its callers count at
      least the one job they publish. */
  lemma AdmissionIff(limit: int, count: int)
    requires limit > 0
    ensures (forall steps :: Uses(steps, limit, count) ==> Bounds(steps, limit)) <==> count >= 1
  {
    if count >= 1 {
      forall steps | Uses(steps, limit, count) ensures Bounds(steps, limit) {
        AdmissionBound(steps, limit);
      }
    } else {
      var p := Publication("", "", map[]);
      var steps := Admissions(p, limit, count, limit + 1);
      ZeroCountOverflows(p, limit, count, limit + 1);
      assert Uses(steps, limit, count) && !Bounds(steps, limit);
    }
  }
}
