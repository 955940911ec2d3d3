/** The job queue as a concurrent system. Any number of producers, workers, reapers and
    DLQ retriers act on one Redis; each atomic command or script is one step, and an
    operation made of several commands keeps a program counter between them. Workers
    are not trusted: any worker command may come at any time, under any worker name. */
module QueueMachine {
  import opened Text
  import opened ScanJobs
  import opened RedisStore
  import opened Books

  type Thread = nat

  /** Where a client is inside an operation made of several commands. */
  datatype Pc =
    | Idle
    | Judged(w: Worker)                                            // reapWorker: heartbeat read and stale
    | Sweeping(w: Worker, todo: seq<Id>, reaping: bool)            // about to LREM todo[0]
    | Holding(w: Worker, id: Id, todo: seq<Id>, reaping: bool)     // LREM removed id, RPUSH not yet sent
    | Retrying(id: Id)                                             // removed from the DLQ, hash not yet read
    | Republishing(id: Id, p: Publication)                         // hash read and reset, not yet published

  /** What has happened so far. The books are per worker. */
  datatype Log = Log(
    published: multiset<Id>,       // queue entries created by producers, retriers and PushJob
    pushes: seq<Id>,               // everything ever appended to the queue
    pops: seq<Id>,                 // everything ever moved off its head
    cancelled: seq<Id>,            // queue entries removed by CancelJob
    unlimited: nat,                // appends that passed no admission check
    popped: Book<Worker>, acked: Book<Worker>, requeued: Book<Worker>, lost: Book<Worker>,
    buried: multiset<Id>,          // MoveToDLQ calls
    republished: multiset<Id>,     // DLQ entries published again
    abandoned: multiset<Id>)       // DLQ entries removed by a retry that did not publish

  const NO_LOG := Log(multiset{}, [], [], [], 0, map[], map[], map[], map[], multiset{}, multiset{}, multiset{})

  datatype World = World(db: Redis, threads: map<Thread, Pc>, log: Log)

  const START := World(EMPTY, map[], NO_LOG)

  datatype Step =
    | Enqueue(p: Publication)                          // EnqueueJobAtomic
    | Admit(p: Publication, limit: int, count: int)    // EnqueueJobAtomicWithLimit
    | PushJob(id: Id)
    | Pop(w: Worker)                                   // PopJobReliable
    | Ack(w: Worker, id: Id)                           // AckJob
    | Requeue(t: Thread, w: Worker, id: Id)            // RequeueProcessing called
    | Judge(t: Thread, w: Worker, now: int, staleAfter: int)
    | Snapshot(t: Thread)                              // LRANGE of the judged worker's list
    | TakeNext(t: Thread)                              // LREM of the next listed job
    | TakeUnseen(t: Thread)                            // LREM took effect, its reply did not arrive
    | TakeFailed(t: Thread)                            // LREM had no effect and reported an error
    | GiveBack(t: Thread)                              // RPUSH of the job in hand
    | GiveBackFailed(t: Thread)                        // RPUSH had no effect and reported an error
    | EndSweep(t: Thread)                              // DEL of the registration, or return
    | Crash(t: Thread)                                 // or a return on error
    | MoveToDLQ(id: Id)
    | RetryRemove(t: Thread, id: Id)                        // RetryDLQJob: remove
    | RetryRemoveUnseen(id: Id)                             // ... its reply did not arrive
    | RetryLoad(t: Thread)                                  // RetryDLQJob: read the hash
    | RetryPublish(t: Thread)                             // RetryDLQJob: publish
    | CancelJob(id: Id, at: string)
    | WriteHash(id: Id, fields: Hash)                  // HSET of CreateJob, UpdateJob, SetJobPhase
    | ExpireHash(id: Id)
    | AddStatus(status: string, id: Id)
    | DropStatus(status: string, id: Id)
    | SetLease(id: Id, w: Worker)
    | ClearLease(id: Id)                               // ClearJobLease, or the lease's TTL running out
    | Register(w: Worker, r: Registration)             // RegisterWorker, UpdateWorkerHeartbeat
    | Unregister(w: Worker)

  function PcOf(x: World, t: Thread): Pc {
    if t in x.threads then x.threads[t] else Idle
  }

  function Goto(x: World, t: Thread, pc: Pc): (y: World)
    ensures y == x.(threads := y.threads) && PcOf(y, t) == pc
    ensures forall u :: u != t ==> PcOf(y, u) == PcOf(x, u)
  {
    x.(threads := x.threads[t := pc])
  }

  /** The queue entry `id` is published: it enters the queue and the books. */
  function Published(x: World, db: Redis, id: Id, limited: bool): (y: World)
    ensures y == x.(db := db, log := x.log.(published := y.log.published, pushes := x.log.pushes + [id],
                                            unlimited := y.log.unlimited))
  {
    x.(db := db, log := x.log.(published := x.log.published + multiset{id}, pushes := x.log.pushes + [id],
                               unlimited := if limited then x.log.unlimited else x.log.unlimited + 1))
  }

  function DoPop(x: World, w: Worker): (y: World)
    ensures y == x.(db := x.db.(queue := y.db.queue, processing := y.db.processing),
                    log := x.log.(pops := y.log.pops, popped := y.log.popped))
  {
    if x.db.queue == [] then x
    else
      var id := x.db.queue[0];
      x.(db := Move(x.db, w), log := x.log.(pops := x.log.pops + [id], popped := Credit(x.log.popped, w, id)))
  }

  function DoAck(x: World, w: Worker, id: Id): (y: World)
    ensures y == x.(db := x.db.(processing := y.db.processing), log := x.log.(acked := y.log.acked))
  {
    if id !in Proc(x.db, w) then x
    else x.(db := Take(x.db, w, id), log := x.log.(acked := Credit(x.log.acked, w, id)))
  }

  function DoTake(x: World, t: Thread): (y: World)
    ensures y == x.(db := x.db.(processing := y.db.processing), threads := y.threads)
    ensures forall u :: u != t ==> PcOf(y, u) == PcOf(x, u)
  {
    match PcOf(x, t)
    case Sweeping(w, todo, reaping) =>
      if todo == [] then x
      else if todo[0] !in Proc(x.db, w) then Goto(x, t, Sweeping(w, todo[1..], reaping))
      else Goto(x.(db := Take(x.db, w, todo[0])), t, Holding(w, todo[0], todo[1..], reaping))
    case _ => x
  }

  function DoTakeUnseen(x: World, t: Thread): (y: World)
    ensures y == x.(db := x.db.(processing := y.db.processing), threads := y.threads, log := x.log.(lost := y.log.lost))
    ensures forall u :: u != t ==> PcOf(y, u) == PcOf(x, u)
  {
    match PcOf(x, t)
    case Sweeping(w, todo, reaping) =>
      if todo == [] then x
      else if todo[0] !in Proc(x.db, w) then Goto(x, t, Sweeping(w, todo[1..], reaping))
      else
        var log := x.log.(lost := Credit(x.log.lost, w, todo[0]));
        Goto(x.(db := Take(x.db, w, todo[0]), log := log), t, Sweeping(w, todo[1..], reaping))
    case _ => x
  }

  function DoGiveBack(x: World, t: Thread): (y: World)
    ensures y == x.(db := x.db.(queue := y.db.queue), threads := y.threads,
                    log := x.log.(pushes := y.log.pushes, unlimited := y.log.unlimited, requeued := y.log.requeued))
    ensures forall u :: u != t ==> PcOf(y, u) == PcOf(x, u)
  {
    match PcOf(x, t)
    case Holding(w, id, todo, reaping) =>
      var log := x.log.(pushes := x.log.pushes + [id], unlimited := x.log.unlimited + 1,
                        requeued := Credit(x.log.requeued, w, id));
      Goto(x.(db := RPush(x.db, id), log := log), t, Sweeping(w, todo, reaping))
    case _ => x
  }

  /** The job in the hand of thread `t` is gone; the thread goes on at `pc`. */
  function LoseHand(x: World, t: Thread, pc: Pc): (y: World)
    ensures y == x.(threads := x.threads[t := pc], log := x.log.(lost := y.log.lost, abandoned := y.log.abandoned))
    ensures forall u :: u != t ==> PcOf(y, u) == PcOf(x, u)
  {
    match PcOf(x, t)
    case Holding(w, id, _, _) => Goto(x.(log := x.log.(lost := Credit(x.log.lost, w, id))), t, pc)
    case Retrying(id) => Goto(x.(log := x.log.(abandoned := x.log.abandoned + multiset{id})), t, pc)
    case Republishing(id, _) => Goto(x.(log := x.log.(abandoned := x.log.abandoned + multiset{id})), t, pc)
    case _ => Goto(x, t, pc)
  }

  function DoCancel(x: World, id: Id, now: string): (y: World)
    ensures y == x.(db := x.db.(hashes := y.db.hashes, sets := y.db.sets, queue := y.db.queue),
                    log := x.log.(cancelled := y.log.cancelled))
  {
    if !Cancellable(x.db, id) then x
    else if HasStatus(x.db, id, QUEUED) && id in x.db.queue then
      x.(db := Cancel(x.db, id, now), log := x.log.(cancelled := x.log.cancelled + [id]))
    else x.(db := Cancel(x.db, id, now))
  }

  function DoEndSweep(x: World, t: Thread): (y: World)
    ensures y == x.(db := x.db.(workers := y.db.workers), threads := y.threads)
    ensures forall w :: w in y.db.workers ==> w in x.db.workers
    ensures forall u :: u != t ==> PcOf(y, u) == PcOf(x, u)
  {
    match PcOf(x, t)
    case Sweeping(w, todo, reaping) =>
      if todo != [] then x
      else if reaping then Goto(x.(db := x.db.(workers := x.db.workers - {w})), t, Idle)
      else Goto(x, t, Idle)
    case _ => x
  }

  /** RetryDLQJob after its removal: a job without a hash is an error. */
  function DoLoad(x: World, t: Thread): (y: World)
    ensures y == x.(threads := y.threads, log := x.log.(abandoned := y.log.abandoned))
    ensures forall u :: u != t ==> PcOf(y, u) == PcOf(x, u)
  {
    match PcOf(x, t)
    case Retrying(id) =>
      if HashOf(x.db, id) == map[] then LoseHand(x, t, Idle)
      else Goto(x, t, Republishing(id, Republication(HashOf(x.db, id))))
    case _ => x
  }

  function DoRepublish(x: World, t: Thread): (y: World)
    ensures y == x.(db := x.db.(hashes := y.db.hashes, sets := y.db.sets, queue := y.db.queue), threads := y.threads,
                    log := x.log.(published := y.log.published, pushes := y.log.pushes, unlimited := y.log.unlimited,
                                  republished := y.log.republished))
    ensures forall u :: u != t ==> PcOf(y, u) == PcOf(x, u)
  {
    match PcOf(x, t)
    case Republishing(id, p) =>
      var y := Published(x, Publish(x.db, p), p.id, false);
      Goto(y.(log := y.log.(republished := y.log.republished + multiset{id})), t, Idle)
    case _ => x
  }

  predicate MovesOnly(s: Step) { s.Requeue? || s.Judge? || s.Snapshot? || s.TakeFailed? }

  /** Steps of a sweep that move only its program counter. */
  function DoMove(x: World, s: Step): (y: World)
    requires MovesOnly(s)
    ensures y == x.(threads := y.threads)
    ensures forall u :: u != s.t ==> PcOf(y, u) == PcOf(x, u)
  {
    var pc := PcOf(x, s.t);
    match s
    case Requeue(t, w, id) => if pc.Idle? then Goto(x, t, Sweeping(w, [id], false)) else x
    case Judge(t, w, now, staleAfter) =>
      if pc.Idle? && Stale(x.db, w, now, staleAfter) then Goto(x, t, Judged(w)) else x
    case Snapshot(t) => if pc.Judged? then Goto(x, t, Sweeping(pc.w, Proc(x.db, pc.w), true)) else x
    case TakeFailed(t) =>
      if pc.Sweeping? && pc.todo != [] then Goto(x, t, Sweeping(pc.w, pc.todo[1..], pc.reaping)) else x
  }

  function DoGiveBackFailed(x: World, t: Thread): (y: World)
    ensures y == x.(threads := y.threads, log := x.log.(lost := y.log.lost))
    ensures forall u :: u != t ==> PcOf(y, u) == PcOf(x, u)
  {
    var pc := PcOf(x, t);
    if pc.Holding? then LoseHand(x, t, Sweeping(pc.w, pc.todo, pc.reaping)) else x
  }

  function DoBury(x: World, id: Id): (y: World)
    ensures y == x.(db := x.db.(sets := y.db.sets, dlq := y.db.dlq), log := x.log.(buried := y.log.buried))
  {
    x.(db := Bury(x.db, id), log := x.log.(buried := x.log.buried + multiset{id}))
  }

  function DoUnbury(x: World, t: Thread, id: Id): (y: World)
    ensures y == x.(db := x.db.(dlq := y.db.dlq), threads := y.threads)
    ensures forall u :: u != t ==> PcOf(y, u) == PcOf(x, u)
  {
    if PcOf(x, t).Idle? && id in x.db.dlq then Goto(x.(db := Unbury(x.db, id)), t, Retrying(id)) else x
  }

  function DoUnburyUnseen(x: World, id: Id): (y: World)
    ensures y == x.(db := x.db.(dlq := y.db.dlq), log := x.log.(abandoned := y.log.abandoned))
  {
    if id in x.db.dlq then x.(db := Unbury(x.db, id), log := x.log.(abandoned := x.log.abandoned + multiset{id}))
    else x
  }

  predicate WritesOnly(s: Step) {
    s.WriteHash? || s.ExpireHash? || s.AddStatus? || s.DropStatus? || s.SetLease? || s.ClearLease? || s.Register?
    || s.Unregister?
  }

  /** Single commands on hashes, status sets, leases and registrations. */
  function DoWrite(x: World, s: Step): (y: World)
    requires WritesOnly(s)
    ensures y == x.(db := x.db.(hashes := y.db.hashes, sets := y.db.sets, leases := y.db.leases,
                                workers := y.db.workers))
    ensures !s.AddStatus? && !s.DropStatus? ==> y.db.sets == x.db.sets
    ensures !s.SetLease? && !s.ClearLease? ==> y.db.leases == x.db.leases
    ensures !s.Register? && !s.Unregister? ==> y.db.workers == x.db.workers
  {
    match s
    case WriteHash(id, fields) => x.(db := HSet(x.db, id, fields))
    case ExpireHash(id) => x.(db := x.db.(hashes := x.db.hashes - {id}))
    case AddStatus(status, id) => x.(db := SAdd(x.db, status, id))
    case DropStatus(status, id) => x.(db := SRem(x.db, status, id))
    case SetLease(id, w) => x.(db := x.db.(leases := x.db.leases[id := w]))
    case ClearLease(id) => x.(db := x.db.(leases := x.db.leases - {id}))
    case Register(w, r) => x.(db := x.db.(workers := x.db.workers[w := r]))
    case Unregister(w) => x.(db := x.db.(workers := x.db.workers - {w}))
  }

  function DoAdmit(x: World, p: Publication, limit: int, count: int): World {
    if Admits(x.db, limit, count) then Published(x, Publish(x.db, p), p.id, limit > 0) else x
  }

  /** One step; a step that is not enabled changes nothing. */
  function Apply(x: World, s: Step): World {
    if MovesOnly(s) then DoMove(x, s)
    else if WritesOnly(s) then DoWrite(x, s)
    else match s
      case Enqueue(p) => Published(x, Publish(x.db, p), p.id, false)
      case Admit(p, limit, count) => DoAdmit(x, p, limit, count)
      case PushJob(id) => Published(x, RPush(x.db, id), id, false)
      case Pop(w) => DoPop(x, w)
      case Ack(w, id) => DoAck(x, w, id)
      case TakeNext(t) => DoTake(x, t)
      case TakeUnseen(t) => DoTakeUnseen(x, t)
      case GiveBack(t) => DoGiveBack(x, t)
      case GiveBackFailed(t) => DoGiveBackFailed(x, t)
      case EndSweep(t) => DoEndSweep(x, t)
      case Crash(t) => LoseHand(x, t, Idle)
      case MoveToDLQ(id) => DoBury(x, id)
      case RetryRemove(t, id) => DoUnbury(x, t, id)
      case RetryRemoveUnseen(id) => DoUnburyUnseen(x, id)
      case RetryLoad(t) => DoLoad(x, t)
      case RetryPublish(t) => DoRepublish(x, t)
      case CancelJob(id, at) => DoCancel(x, id, at)
  }

  // `Apply`, kind by kind

  lemma ApplyQueue(x: World, s: Step)
    ensures s.Enqueue? ==> Apply(x, s) == Published(x, Publish(x.db, s.p), s.p.id, false)
    ensures s.Admit? ==> Apply(x, s) == DoAdmit(x, s.p, s.limit, s.count)
    ensures s.PushJob? ==> Apply(x, s) == Published(x, RPush(x.db, s.id), s.id, false)
    ensures s.Pop? ==> Apply(x, s) == DoPop(x, s.w)
    ensures s.Ack? ==> Apply(x, s) == DoAck(x, s.w, s.id)
    ensures s.CancelJob? ==> Apply(x, s) == DoCancel(x, s.id, s.at)
  {
    hide DoMove, DoWrite, DoAdmit, DoPop, DoAck, DoTake, DoTakeUnseen, DoGiveBack, DoGiveBackFailed, DoEndSweep;
    hide LoseHand, DoBury, DoUnbury, DoUnburyUnseen, DoLoad, DoRepublish, DoCancel, Published, Publish, RPush;
  }

  lemma ApplySweep(x: World, s: Step)
    ensures s.TakeNext? ==> Apply(x, s) == DoTake(x, s.t)
    ensures s.TakeUnseen? ==> Apply(x, s) == DoTakeUnseen(x, s.t)
    ensures s.GiveBack? ==> Apply(x, s) == DoGiveBack(x, s.t)
    ensures s.GiveBackFailed? ==> Apply(x, s) == DoGiveBackFailed(x, s.t)
    ensures s.EndSweep? ==> Apply(x, s) == DoEndSweep(x, s.t)
    ensures s.Crash? ==> Apply(x, s) == LoseHand(x, s.t, Idle)
  {
    hide DoMove, DoWrite, DoAdmit, DoPop, DoAck, DoTake, DoTakeUnseen, DoGiveBack, DoGiveBackFailed, DoEndSweep;
    hide LoseHand, DoBury, DoUnbury, DoUnburyUnseen, DoLoad, DoRepublish, DoCancel, Published, Publish, RPush;
  }

  lemma ApplyDead(x: World, s: Step)
    ensures s.MoveToDLQ? ==> Apply(x, s) == DoBury(x, s.id)
    ensures s.RetryRemove? ==> Apply(x, s) == DoUnbury(x, s.t, s.id)
    ensures s.RetryRemoveUnseen? ==> Apply(x, s) == DoUnburyUnseen(x, s.id)
    ensures s.RetryLoad? ==> Apply(x, s) == DoLoad(x, s.t)
    ensures s.RetryPublish? ==> Apply(x, s) == DoRepublish(x, s.t)
  {
    hide DoMove, DoWrite, DoAdmit, DoPop, DoAck, DoTake, DoTakeUnseen, DoGiveBack, DoGiveBackFailed, DoEndSweep;
    hide LoseHand, DoBury, DoUnbury, DoUnburyUnseen, DoLoad, DoRepublish, DoCancel, Published, Publish, RPush;
  }

  lemma ApplyPlain(x: World, s: Step)
    ensures MovesOnly(s) ==> Apply(x, s) == DoMove(x, s)
    ensures WritesOnly(s) ==> Apply(x, s) == DoWrite(x, s)
  {
    hide DoMove, DoWrite, DoAdmit, DoPop, DoAck, DoTake, DoTakeUnseen, DoGiveBack, DoGiveBackFailed, DoEndSweep;
    hide LoseHand, DoBury, DoUnbury, DoUnburyUnseen, DoLoad, DoRepublish, DoCancel, Published, Publish, RPush;
  }

  /** The world after a run of steps from `x`. */
  function Run(x: World, steps: seq<Step>): World {
    if steps == [] then x else Apply(Run(x, steps[..|steps| - 1]), steps[|steps| - 1])
  }

  lemma {:induction false} RunConcat(x: World, a: seq<Step>, b: seq<Step>)
    ensures Run(x, a + b) == Run(Run(x, a), b)
  {
    hide Apply;
    if b == [] {
      assert a + b == a;
    } else {
      var n := |b| - 1;
      RunConcat(x, a, b[..n]);
      assert (a + b)[..|a + b| - 1] == a + b[..n];
    }
  }

  lemma RunOne(x: World, a: Step)
    ensures Run(x, [a]) == Apply(x, a)
  {
    hide Apply;
    assert [a][..0] == [];
  }

  lemma RunTwo(x: World, a: Step, b: Step)
    ensures Run(x, [a, b]) == Apply(Apply(x, a), b)
  {
    hide Apply;
    assert [a, b][..1] == [a];
    RunOne(x, a);
  }

  lemma RunThree(x: World, a: Step, b: Step, c: Step)
    ensures Run(x, [a, b, c]) == Apply(Apply(Apply(x, a), b), c)
  {
    hide Apply;
    assert [a, b, c][..2] == [a, b];
    RunTwo(x, a, b);
  }

  lemma RunSnoc(steps: seq<Step>, n: nat)
    requires n < |steps|
    ensures Run(START, steps[..n + 1]) == Apply(Run(START, steps[..n]), steps[n])
  {
    hide Apply;
    assert steps[..n + 1][..n] == steps[..n];
  }
}
