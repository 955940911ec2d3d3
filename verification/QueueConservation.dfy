/** No job is ever duplicated or silently dropped by the queue itself: in every
    interleaving, what was published is accounted for, worker by worker and in total. */
module QueueConservation {
  import opened ScanJobs
  import opened RedisStore
  import opened Books
  import opened QueueMachine

  /** Whose hands to look into: all requeuers', those emptying one worker's list, or
      those of DLQ retriers. */
  datatype Who = Requeuers | Emptying(w: Worker) | Retriers

  predicate Holds(pc: Pc, who: Who) {
    match who
    case Requeuers => pc.Holding?
    case Emptying(w) => pc.Holding? && pc.w == w
    case Retriers => pc.Retrying? || pc.Republishing?
  }

  /** The job a thread has taken out of a list and not yet put back. */
  function Hand(pc: Pc, who: Who): multiset<Id> {
    if Holds(pc, who) then multiset{pc.id} else multiset{}
  }

  function HandBook(threads: map<Thread, Pc>, who: Who): Book<Thread> {
    map t | t in threads :: Hand(threads[t], who)
  }

  function ProcBook(processing: map<Worker, seq<Id>>): Book<Worker> {
    map w | w in processing :: multiset(processing[w])
  }

  /** Everything in some worker's processing list, and everything in some requeuer's hand. */
  ghost function InProcess(x: World): multiset<Id> { Total(ProcBook(x.db.processing)) }

  ghost function InHand(x: World): multiset<Id> { Total(HandBook(x.threads, Requeuers)) }

  /** How often `id` is in a processing list; in a hand. */
  ghost function Running(processing: map<Worker, seq<Id>>, id: Id): nat { Sum(ProcBook(processing), id) }

  ghost function Held(threads: map<Thread, Pc>, who: Who, id: Id): nat { Sum(HandBook(threads, who), id) }

  function Grip(pc: Pc, who: Who, id: Id): nat {
    if Holds(pc, who) then Bit(pc.id, id) else 0
  }

  /** Conservation, for one ID: published = queued + running + held + acked + cancelled + lost. */
  ghost predicate Conserved(x: World, id: Id) {
    x.log.published[id] ==
      Count(x.db.queue, id) + Running(x.db.processing, id) + Held(x.threads, Requeuers, id)
      + Sum(x.log.acked, id) + Count(x.log.cancelled, id) + Sum(x.log.lost, id)
  }

  /** A worker's own account: what it popped is in its list, in a hand that took it from
      there, acked, requeued or lost. */
  ghost predicate Balanced(x: World, w: Worker, id: Id) {
    Entry(x.log.popped, w, id) ==
      Count(Proc(x.db, w), id) + Held(x.threads, Emptying(w), id)
      + Entry(x.log.acked, w, id) + Entry(x.log.requeued, w, id) + Entry(x.log.lost, w, id)
  }

  ghost predicate Accounted(x: World, w: Worker, id: Id) {
    Conserved(x, id) && Balanced(x, w, id)
  }

  lemma HandBookAfterGoto(threads: map<Thread, Pc>, t: Thread, pc: Pc, who: Who)
    ensures HandBook(threads[t := pc], who) == HandBook(threads, who)[t := Hand(pc, who)]
  {}

  lemma HeldAfterGoto(x: World, t: Thread, pc: Pc, who: Who, id: Id)
    ensures Held(x.threads[t := pc], who, id) + Grip(PcOf(x, t), who, id)
            == Held(x.threads, who, id) + Grip(pc, who, id)
  {
    hide Total, HandBook;
    HandBookAfterGoto(x.threads, t, pc, who);
    SumUpdate(HandBook(x.threads, who), t, Hand(pc, who), id);
    HandAt(x, t, who);
  }

  lemma HandAt(x: World, t: Thread, who: Who)
    ensures At(HandBook(x.threads, who), t) == Hand(PcOf(x, t), who)
  {}

  lemma RunningAfterSet(db: Redis, w: Worker, list: seq<Id>, id: Id)
    ensures Running(db.processing[w := list], id) + Count(Proc(db, w), id)
            == Running(db.processing, id) + Count(list, id)
  {
    hide Total, ProcBook;
    ProcBookAfterSet(db.processing, w, list);
    SumUpdate(ProcBook(db.processing), w, multiset(list), id);
    ProcAt(db, w);
  }

  lemma ProcBookAfterSet(processing: map<Worker, seq<Id>>, w: Worker, list: seq<Id>)
    ensures ProcBook(processing[w := list]) == ProcBook(processing)[w := multiset(list)]
  {}

  lemma ProcAt(db: Redis, w: Worker)
    ensures At(ProcBook(db.processing), w) == multiset(Proc(db, w))
  {}

  /** LREM on a processing list, seen by the total and by each worker's list. */
  lemma AfterTake(db: Redis, w: Worker, x: Id, v: Worker, id: Id)
    requires x in Proc(db, w)
    ensures Take(db, w, x).queue == db.queue
    ensures Running(Take(db, w, x).processing, id) + Bit(x, id) == Running(db.processing, id)
    ensures Count(Proc(Take(db, w, x), v), id) + (if v == w then Bit(x, id) else 0) == Count(Proc(db, v), id)
  {
    hide Running, Count;
    RunningAfterSet(db, w, RemoveFirst(Proc(db, w), x), id);
    CountRemove(Proc(db, w), x, id);
  }

  /** Steps that touch neither list, hand nor book. */
  predicate SameAccounts(x: World, y: World) {
    && y.db.queue == x.db.queue && y.db.processing == x.db.processing && y.threads == x.threads
    && y.log.published == x.log.published && y.log.cancelled == x.log.cancelled
    && y.log.popped == x.log.popped && y.log.acked == x.log.acked
    && y.log.requeued == x.log.requeued && y.log.lost == x.log.lost
    && y.log.pushes == x.log.pushes && y.log.pops == x.log.pops && y.log.unlimited == x.log.unlimited
  }

  lemma FrameAccounted(x: World, y: World, w: Worker, id: Id)
    requires Accounted(x, w, id) && SameAccounts(x, y)
    ensures Accounted(y, w, id)
  {
    hide Running, Held, Sum, Entry, Count;
  }

  lemma QuietGoto(x: World, t: Thread, pc: Pc, w: Worker, id: Id)
    requires Accounted(x, w, id) && !PcOf(x, t).Holding? && !pc.Holding?
    ensures Accounted(Goto(x, t, pc), w, id)
  {
    hide Running, Held, Sum, Entry, Count;
    HeldAfterGoto(x, t, pc, Requeuers, id);
    HeldAfterGoto(x, t, pc, Emptying(w), id);
  }

  lemma PublishAccounted(x: World, db: Redis, p: Id, limited: bool, w: Worker, id: Id)
    requires Accounted(x, w, id)
    requires db.queue == x.db.queue + [p] && db.processing == x.db.processing
    ensures Accounted(Published(x, db, p, limited), w, id)
  {
    hide Running, Held, Sum, Entry, Count;
    CountAppend(x.db.queue, p, id);
  }

  lemma PopAccounted(x: World, w: Worker, v: Worker, id: Id)
    requires Accounted(x, v, id)
    ensures Accounted(DoPop(x, w), v, id)
  {
    hide Running, Held, Sum, Entry, Count, Credit;
    var q := x.db.queue;
    if q != [] {
      CountTail(q, id);
      CountAppend(Proc(x.db, w), q[0], id);
      RunningAfterSet(x.db, w, Proc(x.db, w) + [q[0]], id);
      EntryCredit(x.log.popped, w, q[0], v, id);
    }
  }

  lemma AckAccounted(x: World, w: Worker, a: Id, v: Worker, id: Id)
    requires Accounted(x, v, id)
    ensures Accounted(DoAck(x, w, a), v, id)
  {
    hide Running, Held, Sum, Entry, Count, Credit, Proc, Take;
    if a in Proc(x.db, w) {
      AfterTake(x.db, w, a, v, id);
      SumCredit(x.log.acked, w, a, id);
      EntryCredit(x.log.acked, w, a, v, id);
    }
  }

  lemma TakeAccounted(x: World, t: Thread, v: Worker, id: Id)
    requires Accounted(x, v, id)
    ensures Accounted(DoTake(x, t), v, id)
  {
    hide Running, Held, Sum, Entry, Count, Credit, Proc, Take;
    var pc := PcOf(x, t);
    if pc.Sweeping? && pc.todo != [] {
      if pc.todo[0] in Proc(x.db, pc.w) {
        var held := Holding(pc.w, pc.todo[0], pc.todo[1..], pc.reaping);
        AfterTake(x.db, pc.w, pc.todo[0], v, id);
        HeldAfterGoto(x, t, held, Requeuers, id);
        HeldAfterGoto(x, t, held, Emptying(v), id);
      } else {
        QuietGoto(x, t, Sweeping(pc.w, pc.todo[1..], pc.reaping), v, id);
      }
    }
  }

  lemma TakeUnseenAccounted(x: World, t: Thread, v: Worker, id: Id)
    requires Accounted(x, v, id)
    ensures Accounted(DoTakeUnseen(x, t), v, id)
  {
    hide Running, Held, Sum, Entry, Count, Credit, Proc, Take;
    var pc := PcOf(x, t);
    if pc.Sweeping? && pc.todo != [] {
      var next := Sweeping(pc.w, pc.todo[1..], pc.reaping);
      if pc.todo[0] in Proc(x.db, pc.w) {
        AfterTake(x.db, pc.w, pc.todo[0], v, id);
        SumCredit(x.log.lost, pc.w, pc.todo[0], id);
        EntryCredit(x.log.lost, pc.w, pc.todo[0], v, id);
        HeldAfterGoto(x, t, next, Requeuers, id);
        HeldAfterGoto(x, t, next, Emptying(v), id);
      } else {
        QuietGoto(x, t, next, v, id);
      }
    }
  }

  lemma GiveBackAccounted(x: World, t: Thread, v: Worker, id: Id)
    requires Accounted(x, v, id)
    ensures Accounted(DoGiveBack(x, t), v, id)
  {
    hide Running, Held, Sum, Entry, Count, Credit;
    var pc := PcOf(x, t);
    if pc.Holding? {
      var next := Sweeping(pc.w, pc.todo, pc.reaping);
      HeldAfterGoto(x, t, next, Requeuers, id);
      HeldAfterGoto(x, t, next, Emptying(v), id);
      CountAppend(x.db.queue, pc.id, id);
      EntryCredit(x.log.requeued, pc.w, pc.id, v, id);
    }
  }

  lemma LoseHandAccounted(x: World, t: Thread, pc: Pc, v: Worker, id: Id)
    requires Accounted(x, v, id) && !pc.Holding?
    ensures Accounted(LoseHand(x, t, pc), v, id)
  {
    hide Running, Held, Sum, Entry, Count, Credit;
    HeldAfterGoto(x, t, pc, Requeuers, id);
    HeldAfterGoto(x, t, pc, Emptying(v), id);
    var from := PcOf(x, t);
    if from.Holding? {
      SumCredit(x.log.lost, from.w, from.id, id);
      EntryCredit(x.log.lost, from.w, from.id, v, id);
    }
  }

  lemma CancelLists(db: Redis, id: Id, at: string)
    ensures Cancel(db, id, at).processing == db.processing
    ensures Cancel(db, id, at).queue == if HasStatus(db, id, QUEUED) then RemoveFirst(db.queue, id) else db.queue
  {}

  lemma CancelAccounted(x: World, c: Id, at: string, v: Worker, id: Id)
    requires Accounted(x, v, id)
    ensures Accounted(DoCancel(x, c, at), v, id)
  {
    hide Running, Held, Sum, Entry, Count, Cancel, Cancellable, HasStatus;
    CancelLists(x.db, c, at);
    CountRemove(x.db.queue, c, id);
    CountAppend(x.log.cancelled, c, id);
  }

  lemma LoadAccounted(x: World, t: Thread, v: Worker, id: Id)
    requires Accounted(x, v, id)
    ensures Accounted(DoLoad(x, t), v, id)
  {
    hide Republication, Accounted;
    var pc := PcOf(x, t);
    if pc.Retrying? {
      LoseHandAccounted(x, t, Idle, v, id);
      QuietGoto(x, t, Republishing(pc.id, Republication(HashOf(x.db, pc.id))), v, id);
    }
  }

  lemma RepublishAccounted(x: World, t: Thread, v: Worker, id: Id)
    requires Accounted(x, v, id)
    ensures Accounted(DoRepublish(x, t), v, id)
  {
    hide Accounted;
    var pc := PcOf(x, t);
    if pc.Republishing? {
      var y := Published(x, Publish(x.db, pc.p), pc.p.id, false);
      PublishAccounted(x, Publish(x.db, pc.p), pc.p.id, false, v, id);
      var z := y.(log := y.log.(republished := y.log.republished + multiset{pc.id}));
      FrameAccounted(y, z, v, id);
      QuietGoto(z, t, Idle, v, id);
    }
  }

  lemma EndSweepAccounted(x: World, t: Thread, v: Worker, id: Id)
    requires Accounted(x, v, id)
    ensures Accounted(DoEndSweep(x, t), v, id)
  {
    hide Accounted;
    var pc := PcOf(x, t);
    if pc.Sweeping? {
      var y := x.(db := x.db.(workers := x.db.workers - {pc.w}));
      FrameAccounted(x, y, v, id);
      QuietGoto(x, t, Idle, v, id);
      QuietGoto(y, t, Idle, v, id);
    }
  }

  /** The steps that only move a program counter between points without a hand. */
  lemma CounterAccounted(x: World, s: Step, v: Worker, id: Id)
    requires Accounted(x, v, id)
    requires s.Requeue? || s.Judge? || s.Snapshot? || s.TakeFailed? || s.RetryRemove?
    ensures Accounted(Apply(x, s), v, id)
  {
    hide Accounted, Stale;
    var pc := PcOf(x, s.t);
    match s
    case Requeue(t, w, j) => if pc.Idle? { QuietGoto(x, t, Sweeping(w, [j], false), v, id); }
    case Judge(t, w, now, staleAfter) => if pc.Idle? { QuietGoto(x, t, Judged(w), v, id); }
    case Snapshot(t) => if pc.Judged? { QuietGoto(x, t, Sweeping(pc.w, Proc(x.db, pc.w), true), v, id); }
    case TakeFailed(t) =>
      if pc.Sweeping? && pc.todo != [] { QuietGoto(x, t, Sweeping(pc.w, pc.todo[1..], pc.reaping), v, id); }
    case RetryRemove(t, j) =>
      if pc.Idle? {
        var y := x.(db := Unbury(x.db, j));
        FrameAccounted(x, y, v, id);
        QuietGoto(y, t, Retrying(j), v, id);
      }
  }

  predicate Bystander(s: Step) { WritesOnly(s) || s.MoveToDLQ? || s.RetryRemoveUnseen? }

  lemma BystanderAccounts(x: World, s: Step)
    requires Bystander(s)
    ensures SameAccounts(x, Apply(x, s))
  {
    hide DoMove, DoWrite, DoBury, DoUnbury, DoUnburyUnseen, DoGiveBackFailed;
    hide DoPop, DoAck, DoTake, DoTakeUnseen, DoGiveBack, LoseHand, DoCancel, DoEndSweep, DoLoad, DoRepublish;
    hide HSet, SAdd, SRem, Publish, Bury, RemoveFirst, Stale, Published, Goto;
  }

  /** Registrations and leases change by their own commands only. */
  lemma RegistryKept(x: World, s: Step)
    requires !s.Register? && !s.Unregister? && !s.EndSweep? && !s.SetLease? && !s.ClearLease?
    ensures Apply(x, s).db.workers == x.db.workers && Apply(x, s).db.leases == x.db.leases
  {
    hide DoMove, DoWrite, DoBury, DoUnbury, DoUnburyUnseen, DoGiveBackFailed;
    hide DoPop, DoAck, DoTake, DoTakeUnseen, DoGiveBack, LoseHand, DoCancel, DoEndSweep, DoLoad, DoRepublish;
    hide Stale, RemoveFirst, Publish, HSet, SAdd, SRem, Bury, PcOf, Proc, Published, Goto;
  }

  lemma StepAccounted(x: World, s: Step, v: Worker, id: Id)
    requires Accounted(x, v, id)
    ensures Accounted(Apply(x, s), v, id)
  {
    hide DoMove, DoWrite, DoBury, DoUnbury, DoUnburyUnseen;
    hide Accounted, Published, Goto, Publish, HSet, SAdd, SRem, Bury, RemoveFirst, Stale;
    hide DoPop, DoAck, DoTake, DoTakeUnseen, DoGiveBack, LoseHand, DoCancel, DoEndSweep, DoLoad, DoRepublish;
    if Bystander(s) {
      BystanderAccounts(x, s);
      FrameAccounted(x, Apply(x, s), v, id);
      return;
    }
    match s
    case Enqueue(p) => PublishAccounted(x, Publish(x.db, p), p.id, false, v, id);
    case Admit(p, limit, count) => PublishAccounted(x, Publish(x.db, p), p.id, limit > 0, v, id);
    case PushJob(p) => PublishAccounted(x, RPush(x.db, p), p, false, v, id);
    case Pop(w) => PopAccounted(x, w, v, id);
    case Ack(w, a) => AckAccounted(x, w, a, v, id);
    case TakeNext(t) => TakeAccounted(x, t, v, id);
    case TakeUnseen(t) => TakeUnseenAccounted(x, t, v, id);
    case GiveBack(t) => GiveBackAccounted(x, t, v, id);
    case GiveBackFailed(t) =>
      var pc := PcOf(x, t);
      if pc.Holding? { LoseHandAccounted(x, t, Sweeping(pc.w, pc.todo, pc.reaping), v, id); }
    case EndSweep(t) => EndSweepAccounted(x, t, v, id);
    case Crash(t) => LoseHandAccounted(x, t, Idle, v, id);
    case RetryLoad(t) => LoadAccounted(x, t, v, id);
    case RetryPublish(t) => RepublishAccounted(x, t, v, id);
    case CancelJob(c, at) => CancelAccounted(x, c, at, v, id);
    case _ => CounterAccounted(x, s, v, id);
  }

  lemma {:induction false} RunAccounted(steps: seq<Step>, w: Worker, id: Id)
    ensures Accounted(Run(START, steps), w, id)
  {
    hide Apply;
    if steps != [] {
      var n := |steps| - 1;
      RunAccounted(steps[..n], w, id);
      StepAccounted(Run(START, steps[..n]), steps[n], w, id);
    }
  }

  /** In every interleaving of every client, the multiset of published job IDs equals the
      main queue, plus all processing lists, plus IDs in a requeuer's hand, plus acked
      ones, plus those removed by a cancel, plus those lost between LREM and RPUSH. */
  lemma Conservation(steps: seq<Step>)
    ensures var x := Run(START, steps);
            x.log.published == multiset(x.db.queue) + InProcess(x) + InHand(x)
                               + Total(x.log.acked) + multiset(x.log.cancelled) + Total(x.log.lost)
  {
    hide Run, Total, ProcBook, HandBook;
    var x := Run(START, steps);
    forall id ensures x.log.published[id] ==
      (multiset(x.db.queue) + InProcess(x) + InHand(x)
       + Total(x.log.acked) + multiset(x.log.cancelled) + Total(x.log.lost))[id]
    {
      RunAccounted(steps, "", id);
    }
  }

  /** The same for each worker: what it ever popped is in its list, in a hand that took
      it from there, acked by it, requeued from it, or lost from it. */
  lemma WorkerConservation(steps: seq<Step>, w: Worker)
    ensures var x := Run(START, steps);
            At(x.log.popped, w) == multiset(Proc(x.db, w)) + Total(HandBook(x.threads, Emptying(w)))
                                   + At(x.log.acked, w) + At(x.log.requeued, w) + At(x.log.lost, w)
  {
    hide Run, Total, HandBook;
    var x := Run(START, steps);
    forall id ensures At(x.log.popped, w)[id] ==
      (multiset(Proc(x.db, w)) + Total(HandBook(x.threads, Emptying(w)))
       + At(x.log.acked, w) + At(x.log.requeued, w) + At(x.log.lost, w))[id]
    {
      RunAccounted(steps, w, id);
    }
  }

  /** Live copies of a job never exceed its publications, whatever reapers, late acks,
      crashes and retries do; a job published once is in at most one place. */
  lemma NeverDuplicated(steps: seq<Step>, id: Id)
    ensures var x := Run(START, steps);
            multiset(x.db.queue)[id] + InProcess(x)[id] + InHand(x)[id] <= x.log.published[id]
  {
    Conservation(steps);
  }

  /** A late ack, by a worker that was taken for dead, touches no copy but its own. */
  lemma LateAck(x: World, w: Worker, id: Id, v: Worker)
    requires v != w
    ensures var y := Apply(x, Ack(w, id));
            Proc(y.db, v) == Proc(x.db, v) && y.db.queue == x.db.queue && y.threads == x.threads
  {
    hide RemoveFirst;
  }
}
