/** When the status sets are exact: a job is in a set if and only if its hash has that
    status and it is not dead. Operations are taken one at a time. */
module StatusExact {
  import opened Text
  import opened ScanJobs
  import opened RedisStore
  import opened StatusSets

  ghost predicate ExactAt(db: Redis, id: Id) {
    forall s: string :: id in Members(db, s) <==> HasStatus(db, id, s) && id !in db.dlq
  }

  ghost predicate Exact(db: Redis) { forall id: Id :: ExactAt(db, id) }

  function StatusOf(db: Redis, id: Id): Option<string> {
    if id in db.hashes && KStatus in db.hashes[id] then Some(db.hashes[id][KStatus]) else None
  }

  // What a caller has to check first

  /** A save that publishes must not meet a dead job, nor one filed under another status. */
  predicate MayPublish(db: Redis, id: Id, status: string) {
    id !in db.dlq && (StatusOf(db, id).Some? ==> StatusOf(db, id).value == status)
  }

  /** An update must not move a dead job, and must find the status of a living one: UpdateJob
      takes a missing and an empty status for the same. */
  predicate MayUpdate(db: Redis, p: Save) {
    var was := Get(HashOf(db, p.id), KStatus, "");
    if p.id in db.dlq then was == "" || was == p.status
    else was != "" || (p.status == "" && StatusOf(db, p.id) == Some(""))
  }

  /** MoveToDLQ takes a job out of three sets only. */
  predicate MayBury(db: Redis, id: Id) {
    id in db.dlq || StatusOf(db, id).None? || StatusOf(db, id).value in {QUEUED, PROCESSING, FAILED}
  }

  /** A retry that publishes must leave no second entry of the job on the list; one that
      publishes under another ID must meet a job it may publish, and leave behind a job that
      is still dead or has no status. */
  predicate MayRetry(db: Redis, id: Id) {
    var rest, p := RemoveFirst(db.dlq, id), RetrySave(db, id);
    RetryPublishes(db, id) ==>
      && p.id !in rest
      && (p.id != id ==> (StatusOf(db, p.id).Some? ==> StatusOf(db, p.id).value == QUEUED)
                         && (id in rest || StatusOf(db, id).None?))
  }

  predicate Keeps(db: Redis, op: Op) {
    match op
    case Publish(p) => MayPublish(db, p.id, p.status)
    case Create(p) => MayPublish(db, p.id, p.status)
    case Update(p) => MayUpdate(db, p)
    case DeadLetter(id) => MayBury(db, id)
    case Retry(id) => MayRetry(db, id)
    case CancelOne(id, _) => Cancellable(db, id) ==> id !in db.dlq
    case Phase(_, _) => true
  }

  // The job an operation is about

  lemma SaveExactIff(db: Redis, after: Redis, p: Save)
    requires ExactAt(db, p.id) && after.dlq == db.dlq
    requires forall s: string :: p.id in Members(after, s) <==> p.id in Members(db, s) || s == p.status
    requires forall s: string :: HasStatus(after, p.id, s) <==> s == p.status
    ensures ExactAt(after, p.id) <==> MayPublish(db, p.id, p.status)
  {
    hide Members, HasStatus;
    StatusIs(db, p.id);
    assert p.id in Members(after, p.status);
    if ExactAt(after, p.id) && StatusOf(db, p.id).Some? {
      var s := StatusOf(db, p.id).value;
      assert p.id in Members(db, s);
      assert p.id in Members(after, s);
    }
  }

  lemma StatusIs(db: Redis, id: Id)
    ensures forall s: string :: HasStatus(db, id, s) <==> StatusOf(db, id) == Some(s)
  {}

  lemma Saved(db: Redis, p: Save)
    ensures var after := Record(db, p);
            && after.dlq == db.dlq
            && (forall s: string :: p.id in Members(after, s) <==> p.id in Members(db, s) || s == p.status)
            && (forall s: string :: HasStatus(after, p.id, s) <==> s == p.status)
  {
    var saved := HSet(db, p.id, p.fields);
    forall s: string ensures p.id in Members(Record(db, p), s) <==> p.id in Members(db, s) || s == p.status {
      AddMembers(saved, p.status, p.id, s, p.id);
      SavedStatus(db, p, s, p.id);
    }
  }

  lemma Pushed(db: Redis, id: Id, i: Id)
    ensures ExactAt(RPush(db, id), i) <==> ExactAt(db, i)
  {
    assert forall s: string :: Members(RPush(db, id), s) == Members(db, s);
    assert forall s: string :: HasStatus(RPush(db, id), i, s) <==> HasStatus(db, i, s);
  }

  lemma PublishExactIff(db: Redis, p: Save)
    requires ExactAt(db, p.id)
    ensures ExactAt(Record(db, p), p.id) <==> MayPublish(db, p.id, p.status)
    ensures ExactAt(RedisStore.Publish(db, p), p.id) <==> MayPublish(db, p.id, p.status)
  {
    hide ExactAt, MayPublish, Record, RPush, HasStatus, Members;
    Saved(db, p);
    SaveExactIff(db, Record(db, p), p);
    Pushed(Record(db, p), p.id, p.id);
  }

  lemma UpdateExactIff(db: Redis, p: Save)
    requires ExactAt(db, p.id)
    ensures ExactAt(UpdateJob(db, p), p.id) <==> MayUpdate(db, p)
  {
    hide Members, Reclassify;
    var id, was, after := p.id, Get(HashOf(db, p.id), KStatus, ""), UpdateJob(db, p);
    var saved := HSet(db, id, p.fields);
    ReclassifyHashes(saved, id, was, p.status);
    assert after.dlq == db.dlq by { UpdateFrame(db, p); }
    forall s: string
      ensures id in Members(after, s) <==> StaysIn(s, p.status, was, id in Members(db, s))
      ensures HasStatus(after, id, s) <==> s == p.status
    {
      ReclassifyMembers(saved, id, was, p.status, s, id);
      SavedStatus(db, p, s, id);
    }
    UpdateCases(db, after, p, was);
  }

  lemma UpdateFrame(db: Redis, p: Save)
    ensures UpdateJob(db, p).dlq == db.dlq
  {
    hide HSet, SAdd, SRem;
  }

  lemma UpdateCases(db: Redis, after: Redis, p: Save, was: string)
    requires ExactAt(db, p.id) && after.dlq == db.dlq && was == Get(HashOf(db, p.id), KStatus, "")
    requires forall s: string :: p.id in Members(after, s) <==> StaysIn(s, p.status, was, p.id in Members(db, s))
    requires forall s: string :: HasStatus(after, p.id, s) <==> s == p.status
    ensures ExactAt(after, p.id) <==> MayUpdate(db, p)
  {
    hide Members, HasStatus;
    StatusIs(db, p.id);
    assert p.id in Members(after, p.status) <==> StaysIn(p.status, p.status, was, p.id in Members(db, p.status));
    assert p.id in Members(after, "") <==> StaysIn("", p.status, was, p.id in Members(db, ""));
    assert was == if StatusOf(db, p.id).Some? then StatusOf(db, p.id).value else "";
  }

  lemma BuryExactIff(db: Redis, id: Id)
    requires ExactAt(db, id)
    ensures ExactAt(Bury(db, id), id) <==> MayBury(db, id)
  {
    hide Members, HasStatus, Bury;
    forall s: string
      ensures id in Members(Bury(db, id), s) <==> id in Members(db, s) && s !in {QUEUED, PROCESSING, FAILED}
    {
      BuryMembers(db, id, s, id);
    }
    StatusIs(db, id);
    BuryDlq(db, id);
    if StatusOf(db, id).Some? {
      var s := StatusOf(db, id).value;
      assert id in Members(Bury(db, id), s) <==> id in Members(db, s) && s !in {QUEUED, PROCESSING, FAILED};
    }
  }

  lemma BuryDlq(db: Redis, id: Id)
    ensures id in Bury(db, id).dlq
  {}

  lemma CancelExactIff(db: Redis, id: Id, at: string)
    requires ExactAt(db, id) && Cancellable(db, id)
    ensures ExactAt(Cancel(db, id, at), id) <==> id !in db.dlq
  {
    var after := Cancel(db, id, at);
    assert forall s: string :: HasStatus(after, id, s) <==> s == CANCELLED by { CancelHashes(db, id, at); }
    StatusIs(db, id);
    hide Cancel, HasStatus, Members;
    forall s: string
      ensures id in Members(after, s) <==> s == CANCELLED || (id in Members(db, s) && s != QUEUED && s != PROCESSING)
    {
      CancelMembers(db, id, at, s, id);
    }
    assert id in Members(after, CANCELLED);
  }

  lemma PhaseExact(db: Redis, id: Id, phase: string)
    requires ExactAt(db, id)
    ensures ExactAt(HSet(db, id, map[KPhase := phase]), id)
  {
    var after := HSet(db, id, map[KPhase := phase]);
    assert forall s: string :: Members(after, s) == Members(db, s);
    assert forall s: string :: HasStatus(after, id, s) <==> HasStatus(db, id, s);
  }

  // Retries: the job taken off the list, and the job published

  lemma UnburyExactIff(db: Redis, id: Id, i: Id)
    requires ExactAt(db, i)
    ensures ExactAt(Unbury(db, id), i)
       <==> (i == id && id in db.dlq ==> id in RemoveFirst(db.dlq, id) || StatusOf(db, id).None?)
  {
    assert forall s: string :: Members(Unbury(db, id), s) == Members(db, s);
    assert forall s: string :: HasStatus(Unbury(db, id), i, s) <==> HasStatus(db, i, s);
    StatusIs(db, i);
    hide Members, HasStatus;
    if i != id { RemoveSpares(db.dlq, id, i); }
    if id !in db.dlq { RemoveAbsent(db.dlq, id); }
    hide RemoveFirst;
    if StatusOf(db, i).Some? { assert HasStatus(db, i, StatusOf(db, i).value); }
  }

  /** Publishing a dead job under its own ID, once it is off the list. */
  lemma OwnRetryIff(db: Redis, id: Id)
    requires ExactAt(db, id) && RetryPublishes(db, id) && RetrySave(db, id).id == id
    ensures ExactAt(Do(db, Retry(id)), id) <==> MayRetry(db, id)
  {
    hide RetrySave, Record, RPush;
    var p, left := RetrySave(db, id), Unbury(db, id);
    RetryStatus(db, id);
    Saved(left, p);
    Pushed(Record(left, p), id, id);
    assert forall s: string :: Members(left, s) == Members(db, s);
    hide Members, HasStatus, RemoveFirst;
    assert id in Members(Record(left, p), QUEUED);
  }

  lemma RetryIs(db: Redis, id: Id)
    requires RetryPublishes(db, id)
    ensures Do(db, Retry(id)) == RedisStore.Publish(Unbury(db, id), RetrySave(db, id))
  {
    hide RetrySave, RedisStore.Publish, Unbury;
  }

  lemma LeftAlone(db: Redis, id: Id, i: Id)
    ensures StatusOf(Unbury(db, id), i) == StatusOf(db, i) && Unbury(db, id).dlq == RemoveFirst(db.dlq, id)
  {}

  lemma OtherRetryIff(db: Redis, id: Id)
    requires Exact(db) && RetryPublishes(db, id) && RetrySave(db, id).id != id
    ensures var after, j := Do(db, Retry(id)), RetrySave(db, id).id;
            ExactAt(after, id) && ExactAt(after, j) <==> MayRetry(db, id)
  {
    assert ExactAt(db, id) && ExactAt(db, RetrySave(db, id).id);
    hide ExactAt, Exact, RetrySave, RedisStore.Publish, RemoveFirst, Spares, Members, HasStatus, StatusOf, Unbury, Do;
    var p, left := RetrySave(db, id), Unbury(db, id);
    RetryIs(db, id);
    LeftAlone(db, id, p.id);
    UnburyExactIff(db, id, id);
    UnburyExactIff(db, id, p.id);
    RetryStatus(db, id);
    PublishExactIff(left, p);
    SaveSpares(left, p, id);
    SparedIff(left, RedisStore.Publish(left, p), id);
  }

  // Every other job

  lemma SparedIff(db: Redis, after: Redis, id: Id)
    requires Spares(db, after, id)
    ensures ExactAt(after, id) <==> ExactAt(db, id)
  {
    SparedStatus(db, after, id);
    hide HasStatus, Members;
  }

  lemma SparedStatus(db: Redis, after: Redis, id: Id)
    requires Spares(db, after, id)
    ensures forall s: string :: HasStatus(after, id, s) <==> HasStatus(db, id, s)
  {
    if id in after.hashes { assert after.hashes[id] == db.hashes[id]; }
  }

  /** The IDs an operation can touch. */
  predicate Touches(db: Redis, op: Op, id: Id) {
    id == Subject(op) || (op.Retry? && RetryPublishes(db, op.id) && id == RetrySave(db, op.id).id)
  }

  lemma RetryElsewhere(db: Redis, id: Id, i: Id)
    requires !Touches(db, Retry(id), i) && ExactAt(db, i)
    ensures ExactAt(Do(db, Retry(id)), i)
  {
    UnburyExactIff(db, id, i);
    hide RetrySave, RedisStore.Publish, ExactAt, RemoveFirst;
    if RetryPublishes(db, id) {
      SaveSpares(Unbury(db, id), RetrySave(db, id), i);
      SparedIff(Unbury(db, id), Do(db, Retry(id)), i);
    }
  }

  lemma OtherExact(db: Redis, op: Op, id: Id)
    requires ExactAt(db, id) && !Touches(db, op, id)
    ensures ExactAt(Do(db, op), id)
  {
    hide ExactAt, RetrySave, RedisStore.Publish, Record, UpdateJob, Cancel;
    if op.Retry? {
      RetryElsewhere(db, op.id, id);
    } else if op.CancelOne? && !Cancellable(db, op.id) {
    } else {
      if op.Publish? || op.Create? { SaveSpares(db, op.p, id); }
      else if op.Update? { UpdateSpares(db, op.p, id); }
      else if op.CancelOne? { CancelSpares(db, op.id, op.at, id); }
      else { PlainSpares(db, op, id); }
      SparedIff(db, Do(db, op), id);
    }
  }

  lemma PlainSpares(db: Redis, op: Op, id: Id)
    requires (op.DeadLetter? || op.Phase?) && id != Subject(op)
    ensures Spares(db, Do(db, op), id)
  {}

  /** What is left to check: the touched jobs. */
  lemma TouchedIff(db: Redis, op: Op)
    requires Exact(db)
    ensures (forall id: Id :: Touches(db, op, id) ==> ExactAt(Do(db, op), id)) <==> Keeps(db, op)
  {
    var id := Subject(op);
    assert ExactAt(db, id);
    if op.Retry? {
      RetryTouchedIff(db, id);
    } else {
      hide ExactAt, Exact, RedisStore.Publish, Record, UpdateJob, Cancel, Bury, HSet, MayPublish, MayUpdate, MayBury;
      if op.Publish? || op.Create? { PublishExactIff(db, op.p); }
      else if op.Update? { UpdateExactIff(db, op.p); }
      else if op.DeadLetter? { BuryExactIff(db, id); }
      else if op.Phase? { PhaseExact(db, id, op.phase); }
      else if Cancellable(db, id) { CancelExactIff(db, id, op.at); }
      assert Touches(db, op, id);
    }
  }

  lemma RetryTouchedIff(db: Redis, id: Id)
    requires Exact(db)
    ensures (forall i: Id :: Touches(db, Retry(id), i) ==> ExactAt(Do(db, Retry(id)), i)) <==> MayRetry(db, id)
  {
    assert ExactAt(db, id);
    UnburyExactIff(db, id, id);
    NoHashNoStatus(db, id);
    assert Touches(db, Retry(id), id);
    if RetryPublishes(db, id) {
      var j := RetrySave(db, id).id;
      assert Touches(db, Retry(id), j);
      if j == id { OwnRetryIff(db, id); } else { OtherRetryIff(db, id); }
    }
    hide ExactAt, Exact, RetrySave, RedisStore.Publish, RemoveFirst;
  }

  lemma NoHashNoStatus(db: Redis, id: Id)
    ensures HashOf(db, id) == map[] ==> StatusOf(db, id).None?
  {}

  /** One operation keeps the sets exact exactly when its condition holds before it. */
  lemma StepExactIff(db: Redis, op: Op)
    requires Exact(db)
    ensures Exact(Do(db, op)) <==> Keeps(db, op)
  {
    TouchedIff(db, op);
    hide ExactAt, Do, Keeps, Touches;
    forall id: Id | !Touches(db, op, id) ensures ExactAt(Do(db, op), id) {
      assert ExactAt(db, id);
      OtherExact(db, op, id);
    }
  }

  // Whole runs

  lemma LastExact(db: Redis, ops: seq<Op>)
    requires ops != []
    ensures var before := After(db, ops[..|ops| - 1]);
            Exact(before) ==> (Exact(After(db, ops)) <==> Keeps(before, ops[|ops| - 1]))
  {
    hide Exact, Keeps, Do;
    var before := After(db, ops[..|ops| - 1]);
    if Exact(before) { StepExactIff(before, ops[|ops| - 1]); }
  }

  ghost predicate AlwaysExact(db: Redis, ops: seq<Op>) {
    forall n :: 0 <= n <= |ops| ==> Exact(After(db, ops[..n]))
  }

  predicate AlwaysKeeps(db: Redis, ops: seq<Op>) {
    forall n :: 0 <= n < |ops| ==> Keeps(After(db, ops[..n]), ops[n])
  }

  lemma {:induction false} ExactSoFar(db: Redis, ops: seq<Op>, n: nat)
    requires Exact(db) && AlwaysKeeps(db, ops) && n <= |ops|
    ensures Exact(After(db, ops[..n]))
  {
    hide Exact, Keeps, After;
    if n == 0 {
      assert ops[..0] == [];
      AfterNone(db);
    } else {
      ExactSoFar(db, ops, n - 1);
      assert ops[..n][..n - 1] == ops[..n - 1];
      LastExact(db, ops[..n]);
    }
  }

  /** Over whole runs: the sets are exact after every operation exactly when every operation
      met its condition at its call. */
  lemma ExactIffKept(db: Redis, ops: seq<Op>)
    requires Exact(db)
    ensures AlwaysExact(db, ops) <==> AlwaysKeeps(db, ops)
  {
    hide Exact, Keeps, After;
    if AlwaysKeeps(db, ops) {
      forall n | 0 <= n <= |ops| ensures Exact(After(db, ops[..n])) { ExactSoFar(db, ops, n); }
    }
    if AlwaysExact(db, ops) {
      forall n | 0 <= n < |ops| ensures Keeps(After(db, ops[..n]), ops[n]) {
        assert ops[..n + 1][..n] == ops[..n];
        assert Exact(After(db, ops[..n])) && Exact(After(db, ops[..n + 1]));
        LastExact(db, ops[..n + 1]);
      }
    }
  }

  // The discipline the worker follows

  /** The discipline of `StatusSets`, with updates only of jobs that exist. */
  ghost predicate Strict(db: Redis, op: Op) {
    Disciplined(db, op) && (op.Update? ==> op.p.id in db.hashes)
  }

  /** Every hash has a status. */
  ghost predicate AllStatuses(db: Redis) { forall id: Id :: id in db.hashes ==> KStatus in db.hashes[id] }

  lemma StrictKeeps(db: Redis, op: Op)
    requires Tidy(db) && AllStatuses(db) && Strict(db, op)
    ensures Keeps(db, op)
  {
    hide RetrySave;
    if op.Retry? && RetryPublishes(db, op.id) {
      RetryIdentity(db, op.id);
      RemoveDistinct(db.dlq, op.id);
    } else if op.CancelOne? {
      assert Resting(db, op.id);
    }
  }

  lemma StrictStatuses(db: Redis, op: Op)
    requires Tidy(db) && AllStatuses(db) && Strict(db, op)
    ensures AllStatuses(Do(db, op))
  {
    var id := Subject(op);
    forall i: Id | i in Do(db, op).hashes ensures KStatus in Do(db, op).hashes[i] {
      if i == id { SubjectStatus(db, op); } else { OtherStatus(db, op, i); }
    }
  }

  lemma OtherStatus(db: Redis, op: Op, i: Id)
    requires Tidy(db) && AllStatuses(db) && i != Subject(op) && i in Do(db, op).hashes
    ensures KStatus in Do(db, op).hashes[i]
  {
    hide Do, Tidy;
    DoSpares(db, op, i);
    assert HashOf(Do(db, op), i) == HashOf(db, i);
  }

  lemma SubjectStatus(db: Redis, op: Op)
    requires Tidy(db) && AllStatuses(db) && Strict(db, op) && Subject(op) in Do(db, op).hashes
    ensures KStatus in Do(db, op).hashes[Subject(op)]
  {
    hide SAdd, SRem, RemoveFirst, RetrySave;
    var id := Subject(op);
    if op.Update? {
      ReclassifyHashes(HSet(db, id, op.p.fields), id, Get(HashOf(db, id), KStatus, ""), op.p.status);
    } else if op.Retry? && RetryPublishes(db, id) {
      RetryIdentity(db, id);
    } else if op.CancelOne? {
      CancelHashes(db, id, op.at);
    }
  }

  ghost predicate InOrder(db: Redis) { Tidy(db) && AllStatuses(db) && Exact(db) }

  lemma EmptyInOrder()
    ensures InOrder(EMPTY)
  {}

  lemma StrictStep(db: Redis, op: Op)
    requires InOrder(db) && Strict(db, op)
    ensures InOrder(Do(db, op))
  {
    hide Do, Disciplined, Tidy, Exact, Keeps, AllStatuses;
    DisciplineTidy(db, op);
    StrictStatuses(db, op);
    StrictKeeps(db, op);
    StepExactIff(db, op);
  }

  lemma {:induction false} StrictRun(ops: seq<Op>)
    requires forall n :: 0 <= n < |ops| ==> Strict(After(EMPTY, ops[..n]), ops[n])
    ensures InOrder(After(EMPTY, ops))
  {
    hide Do, InOrder, Strict;
    EmptyInOrder();
    if ops != [] {
      var m := |ops| - 1;
      assert forall n :: 0 <= n < m ==> ops[..m][..n] == ops[..n];
      StrictRun(ops[..m]);
      StrictStep(After(EMPTY, ops[..m]), ops[m]);
    }
  }

  /** So for callers who publish fresh IDs, mark jobs failed before dead-lettering them, leave
      dead jobs alone until retried and update only jobs that exist, the sets are exact. */
  lemma DisciplinedSetsExact(ops: seq<Op>, id: Id, s: string)
    requires forall n :: 0 <= n < |ops| ==> Strict(After(EMPTY, ops[..n]), ops[n])
    ensures var db := After(EMPTY, ops); id in Members(db, s) <==> HasStatus(db, id, s) && id !in db.dlq
  {
    hide After, Tidy, AllStatuses, Strict;
    StrictRun(ops);
    assert ExactAt(After(EMPTY, ops), id);
  }

  /** UpdateJob files a job it did not know nowhere. */
  lemma UnknownUpdateUnfiled(p: Save, s: string)
    ensures var db := After(EMPTY, [Update(p)]); HasStatus(db, p.id, p.status) && p.id !in Members(db, s)
  {
    assert [Update(p)][..0] == [];
    assert After(EMPTY, [Update(p)]) == UpdateJob(EMPTY, p);
    hide Members;
    var saved := HSet(EMPTY, p.id, p.fields);
    ReclassifyMembers(saved, p.id, "", p.status, s, p.id);
    ReclassifyHashes(saved, p.id, "", p.status);
    SavedStatus(EMPTY, p, s, p.id);
    assert p.id !in Members(EMPTY, s) by { NoMembers(s); }
  }

  lemma NoMembers(s: string)
    ensures Members(EMPTY, s) == {}
  {}
}
