/** The queue as its callers use it, one operation at a time: each method issues the
    commands of its Go counterpart against the store. */
module JobQueues {
  import opened Text
  import opened ScanJobs
  import opened RedisStore
  import opened Books
  import opened QueueConservation
  import opened QueueMachine
  import DeadLetters
  import QueueOrder
  import StatusSets

  datatype Outcome = Ok | ErrNoJob | ErrQueueFull | ErrNotFound | ErrNotCancellable

  /** The store after worker `w`'s whole list has gone back to the tail of the queue. */
  function Drained(db: Redis, w: Worker): Redis {
    var emptied := if Proc(db, w) == [] then db else SetProc(db, w, []);
    emptied.(queue := db.queue + Proc(db, w), workers := db.workers - {w})
  }

  function ReapOne(db: Redis, w: Worker, now: int, staleAfter: int): Redis {
    if Stale(db, w, now, staleAfter) then Drained(db, w) else db
  }

  /** One sweep over the scanned registrations, in scan order. */
  function Swept(db: Redis, ws: seq<Worker>, now: int, staleAfter: int): Redis {
    if ws == [] then db else ReapOne(Swept(db, ws[..|ws| - 1], now, staleAfter), ws[|ws| - 1], now, staleAfter)
  }

  // Effects in the caller's terms

  /** `r` is `s` without its first `x`. */
  ghost predicate WithoutFirst(s: seq<Id>, x: Id, r: seq<Id>) {
    exists i :: 0 <= i < |s| && s[i] == x && x !in s[..i] && r == s[..i] + s[i + 1..]
  }

  lemma RemoveFirstIs(s: seq<Id>, x: Id)
    requires x in s
    ensures WithoutFirst(s, x, RemoveFirst(s, x))
  {
    hide RemoveFirst;
    var i := QueueOrder.RemovedAt(s, x);
  }

  lemma FirstWithout(s: seq<Id>, r: seq<Id>)
    requires s != [] && WithoutFirst(s, s[0], r)
    ensures r == s[1..]
  {
    var i :| 0 <= i < |s| && s[i] == s[0] && s[0] !in s[..i] && r == s[..i] + s[i + 1..];
  }

  lemma TakeEffect(db: Redis, w: Worker, id: Id)
    ensures var after := Take(db, w, id);
      && (id !in Proc(db, w) ==> after == db)
      && (id in Proc(db, w) ==> WithoutFirst(Proc(db, w), id, Proc(after, w))
                                && after == db.(processing := db.processing[w := Proc(after, w)]))
      && (forall j :: Count(Proc(after, w), j) + (if id in Proc(db, w) then Bit(id, j) else 0) == Count(Proc(db, w), j))
  {
    hide RemoveFirst, Count, WithoutFirst;
    if id in Proc(db, w) { RemoveFirstIs(Proc(db, w), id); }
    forall j ensures Count(RemoveFirst(Proc(db, w), id), j) + (if id in Proc(db, w) then Bit(id, j) else 0)
                  == Count(Proc(db, w), j) {
      CountRemove(Proc(db, w), id, j);
    }
  }

  /** The worker's first copy of `id` has moved to the tail of the queue, and that is all. */
  ghost predicate Moved(db: Redis, after: Redis, w: Worker, id: Id) {
    && WithoutFirst(Proc(db, w), id, Proc(after, w))
    && after == db.(queue := db.queue + [id], processing := db.processing[w := Proc(after, w)])
  }

  /** The first `i` of `jobs`, once the whole list of `w`, have been requeued. */
  ghost predicate Reaping(start: Redis, db: Redis, w: Worker, jobs: seq<Id>, i: nat) {
    && i <= |jobs| && Proc(db, w) == jobs[i..] && db.queue == start.queue + jobs[..i]
    && db.processing == (if i == 0 then start.processing else start.processing[w := jobs[i..]])
    && db == start.(queue := db.queue, processing := db.processing)
  }

  lemma ReapStarts(db: Redis, w: Worker)
    ensures Reaping(db, db, w, Proc(db, w), 0)
  {
    var jobs := Proc(db, w);
    assert jobs[0..] == jobs && db.queue + jobs[..0] == db.queue;
  }

  lemma ReapGoesOn(start: Redis, db: Redis, w: Worker, jobs: seq<Id>, i: nat)
    requires Reaping(start, db, w, jobs, i) && i < |jobs|
    ensures jobs[i] in Proc(db, w)
  {
    assert jobs[i..][0] == jobs[i];
  }

  lemma ReapStep(start: Redis, db: Redis, after: Redis, w: Worker, jobs: seq<Id>, i: nat)
    requires Reaping(start, db, w, jobs, i) && i < |jobs| && Moved(db, after, w, jobs[i])
    ensures Reaping(start, after, w, jobs, i + 1)
  {
    hide WithoutFirst;
    assert jobs[i..][0] == jobs[i] && jobs[i..][1..] == jobs[i + 1..];
    FirstWithout(jobs[i..], Proc(after, w));
    assert jobs[..i + 1] == jobs[..i] + [jobs[i]];
    assert start.queue + jobs[..i] + [jobs[i]] == start.queue + jobs[..i + 1];
  }

  lemma ReapEnds(start: Redis, db: Redis, w: Worker, jobs: seq<Id>)
    requires Reaping(start, db, w, jobs, |jobs|) && jobs == Proc(start, w)
    ensures db.(workers := db.workers - {w}) == Drained(start, w)
  {
    assert jobs[|jobs|..] == [] && jobs[..|jobs|] == jobs;
  }

  /** The job's hash reads as `job` merged into what it read as, exactly when the timestamps
      of `job` fit their text; every other hash is as it was. */
  ghost predicate SavedOver(db: Redis, after: Redis, job: ScanJob) {
    && (Decode(BLANK, HashOf(after, job.id)) == Merged(Decode(BLANK, HashOf(db, job.id)), job)
        <==> AllRepresentable(job))
    && (forall i :: i != job.id ==> HashOf(after, i) == HashOf(db, i))
  }

  lemma HashSaved(db: Redis, after: Redis, job: ScanJob)
    requires after.hashes == HSet(db, job.id, Fields(Encode(job))).hashes
    ensures SavedOver(db, after, job)
  {
    hide Decode, Merged, Fields, Encode, AllRepresentable;
    SaveThenRead(HashOf(db, job.id), job);
  }

  lemma SaveEffect(db: Redis, job: ScanJob)
    ensures var after := Publish(db, PublicationOf(job));
      && (forall s, i :: i in Members(after, s) <==> i in Members(db, s) || (i == job.id && s == job.status))
      && SavedOver(db, after, job)
  {
    hide Fields, Encode;
    HashSaved(db, Publish(db, PublicationOf(job)), job);
    hide SavedOver;
  }

  lemma UpdateEffect(db: Redis, job: ScanJob)
    requires StatusSets.WellFormed(PublicationOf(job))
    ensures var after := StatusSets.UpdateJob(db, PublicationOf(job));
      && after == db.(hashes := after.hashes, sets := after.sets)
      && (forall s, i :: i in Members(after, s) <==>
            if i != job.id then i in Members(db, s)
            else StatusSets.StaysIn(s, job.status, Get(HashOf(db, job.id), KStatus, ""), i in Members(db, s)))
      && SavedOver(db, after, job)
  {
    hide Fields, Encode, Members, SAdd, SRem, SavedOver;
    var p := PublicationOf(job);
    var was, saved := Get(HashOf(db, p.id), KStatus, ""), HSet(db, p.id, p.fields);
    StatusSets.ReclassifyHashes(saved, p.id, was, p.status);
    HashSaved(db, StatusSets.UpdateJob(db, p), job);
    forall s, i ensures i in Members(StatusSets.UpdateJob(db, p), s) <==>
            if i != job.id then i in Members(db, s) else StatusSets.StaysIn(s, job.status, was, i in Members(db, s))
    {
      StatusSets.ReclassifyMembers(saved, p.id, was, p.status, s, i);
      StatusSets.SavedStatus(db, p, s, i);
    }
  }

  lemma BuryEffect(db: Redis, id: Id)
    ensures forall s, i :: i in Members(Bury(db, id), s) <==>
              i in Members(db, s) && !(i == id && (s == QUEUED || s == PROCESSING || s == FAILED))
  {
    hide Members, Bury;
    forall s, i ensures i in Members(Bury(db, id), s) <==>
              i in Members(db, s) && !(i == id && (s == QUEUED || s == PROCESSING || s == FAILED))
    {
      StatusSets.BuryMembers(db, id, s, i);
    }
  }

  /** The three fields a cancel writes. */
  function CancelledHash(h: Hash, now: string): Hash {
    h[KStatus := CANCELLED][KFailedAt := now][KError := CANCEL_ERROR]
  }

  lemma CancelEffect(db: Redis, id: Id, now: string)
    requires Cancellable(db, id)
    ensures var after := Cancel(db, id, now);
      && (forall s, i :: i in Members(after, s) <==>
            if i != id then i in Members(db, s)
            else s == CANCELLED || (i in Members(db, s) && s != QUEUED && s != PROCESSING))
      && after.hashes == db.hashes[id := CancelledHash(HashOf(db, id), now)]
      && (if HasStatus(db, id, QUEUED) && id in db.queue then WithoutFirst(db.queue, id, after.queue)
          else after.queue == db.queue)
  {
    StatusSets.CancelHashes(db, id, now);
    assert HashOf(db, id) + map[KStatus := CANCELLED, KFailedAt := now, KError := CANCEL_ERROR]
        == CancelledHash(HashOf(db, id), now);
    hide Members, Cancel, RemoveFirst, WithoutFirst, CancelledHash;
    forall s, i ensures i in Members(Cancel(db, id, now), s) <==>
            if i != id then i in Members(db, s)
            else s == CANCELLED || (i in Members(db, s) && s != QUEUED && s != PROCESSING)
    {
      StatusSets.CancelMembers(db, id, now, s, i);
    }
    if id in db.queue { RemoveFirstIs(db.queue, id); } else { RemoveAbsent(db.queue, id); }
  }

  /** A retried job whose hash names it: off the list, at the tail of the queue, filed as
      queued, and its hash reads as the dead job with its six attempt fields reset. */
  ghost predicate Retried(db: Redis, after: Redis, id: Id) {
    && WithoutFirst(db.dlq, id, after.dlq)
    && after.queue == db.queue + [id]
    && (forall s, i :: i in Members(after, s) <==> i in Members(db, s) || (i == id && s == QUEUED))
    && QueuedAgain(Decode(BLANK, HashOf(db, id)), Decode(BLANK, HashOf(after, id)))
    && (forall i :: i != id ==> HashOf(after, i) == HashOf(db, i))
    && after == db.(dlq := after.dlq, queue := after.queue, sets := after.sets, hashes := after.hashes)
  }

  lemma RetryEffect(db: Redis, id: Id)
    requires id in db.dlq && DeadLetters.Carries(HashOf(db, id), id)
    ensures Retried(db, Publish(Unbury(db, id), Republication(HashOf(db, id))), id)
  {
    hide Decode, Encode, Fields, RemoveFirst, WithoutFirst, Publish, Reset, DeadLetters.Carries, SavedOver;
    var job, left := Reset(Decode(BLANK, HashOf(db, id))), Unbury(db, id);
    RetriedId(db, id);
    RetriedJobReadsReset(HashOf(db, id));
    RemoveFirstIs(db.dlq, id);
    SaveEffect(left, job);
    SavedElsewhere(left, Publish(left, PublicationOf(job)), job);
    SavedHash(left, job);
    UnburyFrame(db, id);
  }

  lemma RetriedId(db: Redis, id: Id)
    requires DeadLetters.Carries(HashOf(db, id), id)
    ensures Reset(Decode(BLANK, HashOf(db, id))).id == id && Reset(Decode(BLANK, HashOf(db, id))).status == QUEUED
  {
    DeadLetters.RetryKeepsIdentity(id, HashOf(db, id));
    hide Fields, Encode;
  }

  lemma SavedElsewhere(db: Redis, after: Redis, job: ScanJob)
    requires SavedOver(db, after, job)
    ensures forall i :: i != job.id ==> HashOf(after, i) == HashOf(db, i)
  {
    hide Decode, Merged, AllRepresentable;
  }

  lemma UnburyFrame(db: Redis, id: Id)
    ensures var left := Unbury(db, id);
            (forall s :: Members(left, s) == Members(db, s)) && (forall i :: HashOf(left, i) == HashOf(db, i))
  {}

  lemma SavedHash(db: Redis, job: ScanJob)
    ensures HashOf(Publish(db, PublicationOf(job)), job.id) == HashOf(db, job.id) + Fields(Encode(job))
  {
    hide Fields, Encode;
  }

  class JobQueue {
    var db: Redis

    constructor ()
      ensures db == EMPTY
    {
      db := EMPTY;
    }

    /** The job is at the tail of the queue and in the set of its status, its hash reads as
        the job merged into what was there, and no other job is touched. */
    method EnqueueJobAtomic(job: ScanJob)
      modifies this
      ensures db == Publish(old(db), PublicationOf(job))
      ensures db == old(db).(queue := old(db).queue + [job.id], hashes := db.hashes, sets := db.sets)
      ensures forall s, i :: i in Members(db, s) <==> i in Members(old(db), s) || (i == job.id && s == job.status)
      ensures SavedOver(old(db), db, job)
    {
      var fields := ToMap(job);
      db := HSet(db, job.id, fields);
      db := SAdd(db, job.status, job.id);
      db := RPush(db, job.id);
      SaveEffect(old(db), job);
    }

    method EnqueueJobAtomicWithLimit(job: ScanJob, limit: int, count: int) returns (r: Outcome)
      modifies this
      ensures r == ErrQueueFull <==> limit > 0 && |old(db).queue| + count > limit
      ensures r == ErrQueueFull ==> db == old(db)
      ensures r != ErrQueueFull ==> r == Ok && db == Publish(old(db), PublicationOf(job))
      ensures limit > 0 && count >= 1 && |old(db).queue| <= limit ==> |db.queue| <= limit
    {
      if limit > 0 {
        var depth := |db.queue|;
        if depth + count > limit {
          return ErrQueueFull;
        }
      }
      EnqueueJobAtomic(job);
      r := Ok;
    }

    /** The head of the queue goes to the end of the worker's list; all else stays. */
    method PopJobReliable(w: Worker) returns (r: Outcome, id: Id)
      modifies this
      ensures if old(db).queue == [] then r == ErrNoJob && db == old(db)
              else r == Ok && old(db).queue == [id] + db.queue
      ensures r == Ok ==>
                && Proc(db, w) == Proc(old(db), w) + [id]
                && (forall v :: v != w ==> Proc(db, v) == Proc(old(db), v))
                && db == old(db).(queue := db.queue, processing := db.processing)
      ensures r == Ok ==> db == Move(old(db), w)
    {
      if db.queue == [] {
        return ErrNoJob, "";
      }
      id := db.queue[0];
      db := Move(db, w);
      r := Ok;
    }

    /** The worker's first copy goes, if it has one; every other list and all else stays. */
    method AckJob(w: Worker, id: Id)
      modifies this
      ensures id !in Proc(old(db), w) ==> db == old(db)
      ensures id in Proc(old(db), w) ==>
                && WithoutFirst(Proc(old(db), w), id, Proc(db, w))
                && db == old(db).(processing := old(db).processing[w := Proc(db, w)])
      ensures forall v :: v != w ==> Proc(db, v) == Proc(old(db), v)
      ensures forall j ::
                Count(Proc(db, w), j) + (if id in Proc(old(db), w) then Bit(id, j) else 0) == Count(Proc(old(db), w), j)
    {
      db := Take(db, w, id);
      TakeEffect(old(db), w, id);
    }

    /** LREM, then RPUSH only if the LREM removed something: a copy the worker has goes to the
        tail of the queue, and a copy it does not have is not made up. */
    method RequeueProcessing(w: Worker, id: Id)
      modifies this
      ensures id !in Proc(old(db), w) ==> db == old(db)
      ensures id in Proc(old(db), w) ==> Moved(old(db), db, w, id)
      ensures forall j ::
                Count(db.queue, j) + Count(Proc(db, w), j) == Count(old(db).queue, j) + Count(Proc(old(db), w), j)
    {
      var removed := id in Proc(db, w);
      db := Take(db, w, id);
      TakeEffect(old(db), w, id);
      if !removed {
        return;
      }
      db := RPush(db, id);
    }

    /** The hash reads as the job merged into what was there. The job leaves the set of the
        status it had and enters the set of its new one, unless it had none or the same; a
        finished job also leaves the queued and processing sets. Nothing else changes. */
    method UpdateJob(job: ScanJob)
      modifies this
      ensures StatusSets.WellFormed(PublicationOf(job))
      ensures db == StatusSets.UpdateJob(old(db), PublicationOf(job))
      ensures db == old(db).(hashes := db.hashes, sets := db.sets)
      ensures forall s, i :: i in Members(db, s) <==>
                if i != job.id then i in Members(old(db), s)
                else StatusSets.StaysIn(s, job.status, Get(HashOf(old(db), job.id), KStatus, ""),
                                        i in Members(old(db), s))
      ensures SavedOver(old(db), db, job)
    {
      StatusSets.JobSaveWellFormed(job);
      var oldStatus := Get(HashOf(db, job.id), KStatus, "");
      var fields := ToMap(job);
      db := HSet(db, job.id, fields);
      if oldStatus != "" && oldStatus != job.status {
        db := SRem(db, oldStatus, job.id);
        db := SAdd(db, job.status, job.id);
      }
      if StatusSets.IsTerminal(job.status) {
        db := SRem(db, QUEUED, job.id);
        db := SRem(db, PROCESSING, job.id);
      }
      UpdateEffect(old(db), job);
    }

    method GetJob(id: Id) returns (r: Outcome, job: ScanJob)
      ensures r == ErrNotFound <==> HashOf(db, id) == map[]
      ensures r != ErrNotFound ==> r == Ok && job == Decode(BLANK, HashOf(db, id))
    {
      var result := HashOf(db, id);
      if result == map[] {
        return ErrNotFound, BLANK;
      }
      var receiver := new Receiver();
      receiver.FromMap(result);
      r, job := Ok, receiver.job;
    }

    /** The job is at the head of the dead-letter list and in none of the queued, processing
        and failed sets; all other memberships, and all else, stay. */
    method MoveToDLQ(id: Id)
      modifies this
      ensures db == old(db).(dlq := [id] + old(db).dlq, sets := db.sets)
      ensures forall s, i :: i in Members(db, s) <==>
                i in Members(old(db), s) && !(i == id && (s == QUEUED || s == PROCESSING || s == FAILED))
    {
      db := db.(dlq := [id] + db.dlq);
      db := SRem(db, QUEUED, id);
      db := SRem(db, PROCESSING, id);
      db := SRem(db, FAILED, id);
      BuryEffect(old(db), id);
    }

    method SetJobLease(id: Id, w: Worker)
      modifies this
      ensures id in db.leases && db.leases[id] == w && db == old(db).(leases := db.leases)
      ensures forall j :: j != id ==> (j in db.leases <==> j in old(db).leases)
      ensures forall j :: j != id && j in db.leases ==> db.leases[j] == old(db).leases[j]
    {
      db := db.(leases := db.leases[id := w]);
    }

    /** Only a worker superseded by another, named one is turned away. */
    method CheckJobLease(id: Id, w: Worker) returns (ok: bool)
      ensures !ok <==> id in db.leases && db.leases[id] != "" && db.leases[id] != w
      ensures ok <==> OwnsLease(db, id, w)
    {
      var owner := "";
      if id in db.leases {
        owner := db.leases[id];
      }
      if owner == "" {
        return true;
      }
      ok := owner == w;
    }

    method ClearJobLease(id: Id)
      modifies this
      ensures id !in db.leases && db == old(db).(leases := db.leases)
      ensures forall j :: j != id ==> (j in db.leases <==> j in old(db).leases)
      ensures forall j :: j in db.leases ==> db.leases[j] == old(db).leases[j]
    {
      db := db.(leases := db.leases - {id});
    }

    /** A job on the list is retried if it has a hash; a hash that names the job makes it
        read back reset, at the tail of the queue. A job not on the list is an error that
        changes nothing. */
    method RetryDLQJob(id: Id) returns (r: Outcome)
      modifies this
      ensures r == Ok <==> StatusSets.RetryPublishes(old(db), id)
      ensures id !in old(db).dlq ==> db == old(db)
      ensures r == Ok && DeadLetters.Carries(HashOf(old(db), id), id) ==> Retried(old(db), db, id)
      ensures db == StatusSets.Do(old(db), StatusSets.Retry(id))
    {
      hide Reset, Decode, PublicationOf, Retried;
      var removed := id in db.dlq;
      db := Unbury(db, id);
      if !removed {
        RemoveAbsent(old(db).dlq, id);
        return ErrNotFound;
      }
      var found, job := GetJob(id);
      if found == ErrNotFound {
        return ErrNotFound;
      }
      job := ResetJob(job);
      EnqueueJobAtomic(job);
      if DeadLetters.Carries(HashOf(old(db), id), id) { RetryEffect(old(db), id); }
      r := Ok;
    }

    method CancelJob(id: Id, now: string) returns (r: Outcome)
      modifies this
      ensures r == Ok <==> Cancellable(old(db), id)
      ensures r == ErrNotFound <==> id !in old(db).hashes
      ensures r != Ok ==> db == old(db)
      ensures r == Ok ==>
                && db.hashes == old(db).hashes[id := CancelledHash(HashOf(old(db), id), now)]
                && (if HasStatus(old(db), id, QUEUED) && id in old(db).queue
                    then WithoutFirst(old(db).queue, id, db.queue)
                    else db.queue == old(db).queue)
                && db == old(db).(hashes := db.hashes, sets := db.sets, queue := db.queue)
                && forall s, i :: i in Members(db, s) <==>
                     if i != id then i in Members(old(db), s)
                     else s == CANCELLED || (i in Members(old(db), s) && s != QUEUED && s != PROCESSING)
    {
      if id !in db.hashes {
        return ErrNotFound;
      }
      if !HasStatus(db, id, QUEUED) && !HasStatus(db, id, PROCESSING) {
        return ErrNotCancellable;
      }
      db := Cancel(db, id, now);
      CancelEffect(old(db), id, now);
      r := Ok;
    }

    /** An uninterrupted reap of a stale worker: its list is empty, the queue has grown by
        exactly that list, in order, and the registration is gone. */
    method ReapWorker(w: Worker, now: int, staleAfter: int)
      modifies this
      ensures db == ReapOne(old(db), w, now, staleAfter)
    {
      hide Reaping, Moved, Count, Stale;
      if !Stale(db, w, now, staleAfter) {
        return;
      }
      var jobs := Proc(db, w);
      ReapStarts(db, w);
      for i := 0 to |jobs|
        invariant Reaping(old(db), db, w, jobs, i)
      {
        ghost var before := db;
        ReapGoesOn(old(db), before, w, jobs, i);
        RequeueProcessing(w, jobs[i]);
        ReapStep(old(db), before, db, w, jobs, i);
      }
      ReapEnds(old(db), db, w, jobs);
      db := db.(workers := db.workers - {w});
    }

    /** reapOnce: page after page of SCAN, worker after worker. */
    method ReapOnce(pages: seq<seq<Worker>>, now: int, staleAfter: int)
      modifies this
      ensures db == Swept(old(db), Flatten(pages), now, staleAfter)
    {
      hide Swept, ReapOne, Flatten;
      ghost var done: seq<Worker> := [];
      SweepStarts(db, now, staleAfter);
      for cursor := 0 to |pages|
        invariant done == Flatten(pages[..cursor])
        invariant db == Swept(old(db), done, now, staleAfter)
      {
        var keys := pages[cursor];
        assert done + keys[..0] == done;
        for k := 0 to |keys|
          invariant db == Swept(old(db), done + keys[..k], now, staleAfter)
        {
          ReapWorker(keys[k], now, staleAfter);
          SweepGoesOn(old(db), done + keys[..k], keys[k], now, staleAfter);
          assert done + keys[..k + 1] == done + keys[..k] + [keys[k]];
        }
        assert keys[..|keys|] == keys;
        NextPage(pages, cursor);
        done := done + keys;
      }
      assert pages[..|pages|] == pages;
    }
  }

  lemma SweepStarts(db: Redis, now: int, staleAfter: int)
    ensures Swept(db, [], now, staleAfter) == db && Flatten([]) == []
  {}

  lemma SweepGoesOn(db: Redis, ws: seq<Worker>, w: Worker, now: int, staleAfter: int)
    ensures Swept(db, ws + [w], now, staleAfter) == ReapOne(Swept(db, ws, now, staleAfter), w, now, staleAfter)
  {
    hide ReapOne;
    assert (ws + [w])[..|ws|] == ws;
  }

  lemma NextPage(pages: seq<seq<Worker>>, n: nat)
    requires n < |pages|
    ensures Flatten(pages[..n + 1]) == Flatten(pages[..n]) + pages[n]
  {
    assert pages[..n + 1][..n] == pages[..n];
  }

  method ResetJob(job: ScanJob) returns (j: ScanJob)
    ensures j == Reset(job)
  {
    j := job;
    j := j.(status := QUEUED);
    j := j.(retryCount := 0);
    j := j.(error := "");
    j := j.(startedAt := None);
    j := j.(failedAt := None);
    j := j.(workerId := "");
  }

  lemma HeadIsFirst(s: seq<Id>)
    requires s != []
    ensures RemoveFirst(s, s[0]) == s[1..] && s[0] in s
  {}

  function Flatten(pages: seq<seq<Worker>>): seq<Worker> {
    if pages == [] then [] else Flatten(pages[..|pages| - 1]) + pages[|pages| - 1]
  }

  /** What one sweep does to worker `w`, whatever else it reaps and however often SCAN
      repeats a key. */
  lemma {:induction false} SweptWorker(db: Redis, ws: seq<Worker>, now: int, staleAfter: int, w: Worker)
    ensures var after := Swept(db, ws, now, staleAfter);
      && db.queue <= after.queue
      && (if w in ws && Stale(db, w, now, staleAfter) then Proc(after, w) == [] && w !in after.workers
          else Proc(after, w) == Proc(db, w) && (w in after.workers <==> w in db.workers)
               && (w in db.workers ==> after.workers[w] == db.workers[w]))
  {
    if ws != [] {
      SweptWorker(db, ws[..|ws| - 1], now, staleAfter, w);
    }
  }

  /** A sweep neither loses nor duplicates a job. */
  lemma {:induction false} SweptConserves(db: Redis, ws: seq<Worker>, now: int, staleAfter: int, id: Id)
    ensures var after := Swept(db, ws, now, staleAfter);
            Count(after.queue, id) + Running(after.processing, id) == Count(db.queue, id) + Running(db.processing, id)
  {
    hide Running;
    if ws != [] {
      var before := Swept(db, ws[..|ws| - 1], now, staleAfter);
      SweptConserves(db, ws[..|ws| - 1], now, staleAfter, id);
      RunningAfterSet(before, ws[|ws| - 1], [], id);
    }
  }

  /** If SCAN reports every registration, a sweep leaves no stale worker registered and no
      job in a stale worker's list. */
  lemma SweepRecoversAll(db: Redis, ws: seq<Worker>, now: int, staleAfter: int, w: Worker)
    requires forall v :: v in db.workers ==> v in ws
    ensures var after := Swept(db, ws, now, staleAfter);
            !Stale(after, w, now, staleAfter) && (Stale(db, w, now, staleAfter) ==> Proc(after, w) == [])
  {
    SweptWorker(db, ws, now, staleAfter, w);
  }

  // The uninterrupted reap as a run of the concurrent system

  /** LREM and RPUSH for each of `n` jobs. */
  function SweepSteps(t: Thread, n: nat): seq<Step> {
    if n == 0 then [] else [TakeNext(t), GiveBack(t)] + SweepSteps(t, n - 1)
  }

  function ReapSteps(t: Thread, w: Worker, now: int, staleAfter: int, n: nat): seq<Step> {
    [Judge(t, w, now, staleAfter), Snapshot(t)] + SweepSteps(t, n) + [EndSweep(t)]
  }

  lemma OneRequeue(x: World, t: Thread, w: Worker, todo: seq<Id>)
    requires PcOf(x, t) == Sweeping(w, todo, true) && Proc(x.db, w) == todo != []
    ensures var y := Run(x, [TakeNext(t), GiveBack(t)]);
            && PcOf(y, t) == Sweeping(w, todo[1..], true)
            && y.db == x.db.(queue := x.db.queue + [todo[0]], processing := x.db.processing[w := todo[1..]])
  {
    hide Run, Apply, Credit, RemoveFirst;
    RunTwo(x, TakeNext(t), GiveBack(t));
    ApplySweep(x, TakeNext(t));
    ApplySweep(Apply(x, TakeNext(t)), GiveBack(t));
    HeadIsFirst(todo);
  }

  lemma {:induction false} SweepRun(x: World, t: Thread, w: Worker, todo: seq<Id>)
    requires PcOf(x, t) == Sweeping(w, todo, true) && Proc(x.db, w) == todo
    ensures var y := Run(x, SweepSteps(t, |todo|));
            && PcOf(y, t) == Sweeping(w, [], true)
            && y.db == x.db.(queue := x.db.queue + todo,
                             processing := if todo == [] then x.db.processing else x.db.processing[w := []])
    decreases |todo|
  {
    hide Apply;
    if todo != [] {
      var y := Run(x, [TakeNext(t), GiveBack(t)]);
      OneRequeue(x, t, w, todo);
      RunConcat(x, [TakeNext(t), GiveBack(t)], SweepSteps(t, |todo| - 1));
      hide Run;
      SweepRun(y, t, w, todo[1..]);
      assert x.db.queue + [todo[0]] + todo[1..] == x.db.queue + todo;
      assert x.db.processing[w := todo[1..]][w := []] == x.db.processing[w := []];
    }
  }

  /** What ReapWorker does in one go is a run of the concurrent system, command by command. */
  lemma ReapIsRun(x: World, t: Thread, w: Worker, now: int, staleAfter: int)
    requires PcOf(x, t).Idle? && Stale(x.db, w, now, staleAfter)
    ensures Run(x, ReapSteps(t, w, now, staleAfter, |Proc(x.db, w)|)).db == ReapOne(x.db, w, now, staleAfter)
  {
    var jobs := Proc(x.db, w);
    var head := [Judge(t, w, now, staleAfter), Snapshot(t)];
    var y := Run(x, head);
    ReapHead(x, t, w, now, staleAfter);
    hide Run, Apply, Stale;
    RunConcat(x, head, SweepSteps(t, |jobs|));
    RunConcat(x, head + SweepSteps(t, |jobs|), [EndSweep(t)]);
    SweepRun(y, t, w, jobs);
    var z := Run(y, SweepSteps(t, |jobs|));
    RunOne(z, EndSweep(t));
    ApplySweep(z, EndSweep(t));
  }

  lemma ReapHead(x: World, t: Thread, w: Worker, now: int, staleAfter: int)
    requires PcOf(x, t).Idle? && Stale(x.db, w, now, staleAfter)
    ensures var y := Run(x, [Judge(t, w, now, staleAfter), Snapshot(t)]);
            y.db == x.db && PcOf(y, t) == Sweeping(w, Proc(x.db, w), true)
  {
    hide Run, Apply, Stale;
    var judge := Judge(t, w, now, staleAfter);
    RunTwo(x, judge, Snapshot(t));
    ApplyPlain(x, judge);
    ApplyPlain(Apply(x, judge), Snapshot(t));
  }

  /** So is RequeueProcessing, whether or not the worker has the job. */
  lemma RequeueIsRun(x: World, t: Thread, w: Worker, id: Id)
    requires PcOf(x, t).Idle?
    ensures var y := Run(x, [Requeue(t, w, id), TakeNext(t)] + [GiveBack(t), EndSweep(t)]);
            y.db == if id in Proc(x.db, w) then RPush(Take(x.db, w, id), id) else x.db
  {
    hide Apply, Run;
    RunTwo(x, Requeue(t, w, id), TakeNext(t));
    var y := Apply(Apply(x, Requeue(t, w, id)), TakeNext(t));
    RunConcat(x, [Requeue(t, w, id), TakeNext(t)], [GiveBack(t), EndSweep(t)]);
    RunTwo(y, GiveBack(t), EndSweep(t));
    RequeueCalled(x, t, w, id);
    RequeueEnds(y, t, w, id);
  }

  lemma RequeueCalled(x: World, t: Thread, w: Worker, id: Id)
    requires PcOf(x, t).Idle?
    ensures var y := Apply(Apply(x, Requeue(t, w, id)), TakeNext(t));
            if id in Proc(x.db, w) then y.db == Take(x.db, w, id) && PcOf(y, t) == Holding(w, id, [], false)
            else y.db == x.db && PcOf(y, t) == Sweeping(w, [], false)
  {
    hide RemoveFirst;
    assert [id][1..] == [];
  }

  lemma RequeueEnds(x: World, t: Thread, w: Worker, id: Id)
    requires PcOf(x, t) == Holding(w, id, [], false) || PcOf(x, t) == Sweeping(w, [], false)
    ensures Apply(Apply(x, GiveBack(t)), EndSweep(t)).db == if PcOf(x, t).Holding? then RPush(x.db, id) else x.db
  {
    hide Credit;
  }

  /** And RetryDLQJob, whether or not the job is on the list and has a hash. */
  lemma RetryIsRun(x: World, t: Thread, id: Id)
    requires PcOf(x, t).Idle?
    ensures Run(x, [RetryRemove(t, id), RetryLoad(t), RetryPublish(t)]).db == StatusSets.Do(x.db, StatusSets.Retry(id))
  {
    hide Apply, Run, Publish, Republication;
    if StatusSets.RetryPublishes(x.db, id) {
      DeadLetters.RetryRuns(x, id, t);
    } else {
      RunThree(x, RetryRemove(t, id), RetryLoad(t), RetryPublish(t));
      RetryFails(x, t, id);
    }
  }

  lemma RetryFails(x: World, t: Thread, id: Id)
    requires PcOf(x, t).Idle? && !StatusSets.RetryPublishes(x.db, id)
    ensures Apply(Apply(Apply(x, RetryRemove(t, id)), RetryLoad(t)), RetryPublish(t)).db == Unbury(x.db, id)
  {
    hide Apply;
    var y := Apply(x, RetryRemove(t, id));
    if id in x.db.dlq {
      DeadLetters.RetryRemoved(x, id, t);
      LoadFails(y, id, t);
      IdlePublishes(Apply(y, RetryLoad(t)), t);
    } else {
      AbsentRemove(x, id, t);
      RemoveAbsent(x.db.dlq, id);
      IdleLoads(x, t);
      IdlePublishes(x, t);
    }
  }

  lemma LoadFails(x: World, id: Id, t: Thread)
    requires PcOf(x, t) == Retrying(id) && HashOf(x.db, id) == map[]
    ensures Apply(x, RetryLoad(t)).db == x.db && PcOf(Apply(x, RetryLoad(t)), t).Idle?
  {}

  lemma IdleLoads(x: World, t: Thread)
    requires PcOf(x, t).Idle?
    ensures Apply(x, RetryLoad(t)) == x
  {}

  lemma IdlePublishes(x: World, t: Thread)
    requires PcOf(x, t).Idle?
    ensures Apply(x, RetryPublish(t)) == x
  {}

  lemma AbsentRemove(x: World, id: Id, t: Thread)
    requires id !in x.db.dlq
    ensures Apply(x, RetryRemove(t, id)) == x
  {}
}
