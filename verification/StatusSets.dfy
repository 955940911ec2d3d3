/** The status sets against the status in each job's hash, over every run of queue
    operations taken one at a time (no command fails, no key expires). */
module StatusSets {
  import opened Text
  import opened Timestamps
  import opened ScanJobs
  import opened RedisStore

  /** A save of a job record: its hash fields carry its own ID and status. */
  predicate WellFormed(p: Publication) {
    KStatus in p.fields && p.fields[KStatus] == p.status && KId in p.fields && p.fields[KId] == p.id
  }

  type Save = p: Publication | WellFormed(p) witness Publication("", "", map[KStatus := "", KId := ""])

  lemma JobSaveWellFormed(job: ScanJob)
    ensures WellFormed(PublicationOf(job))
  {
    hide Format, FormatTimePtr, FormatInt;
    FieldsAt(Encode(job), KStatus);
    FieldsAt(Encode(job), KId);
  }

  datatype Op =
    | Publish(p: Save)                 // EnqueueJobAtomic, an admitted EnqueueJobAtomicWithLimit
    | Create(p: Save)                  // CreateJob
    | Update(p: Save)                  // UpdateJob
    | DeadLetter(id: Id)               // MoveToDLQ
    | Retry(id: Id)                    // RetryDLQJob
    | CancelOne(id: Id, at: string)    // CancelJob
    | Phase(id: Id, phase: string)     // SetJobPhase

  predicate IsTerminal(status: string) {
    status == COMPLETED || status == FAILED || status == CANCELLED
  }

  /** The set bookkeeping of UpdateJob, after the hash has been written. */
  function Reclassify(db: Redis, id: Id, was: string, status: string): Redis {
    var moved := if was != "" && was != status then SAdd(SRem(db, was, id), status, id) else db;
    if IsTerminal(status) then SRem(SRem(moved, QUEUED, id), PROCESSING, id) else moved
  }

  /** UpdateJob: the old status is read before the hash is overwritten. */
  function UpdateJob(db: Redis, p: Save): Redis {
    Reclassify(HSet(db, p.id, p.fields), p.id, Get(HashOf(db, p.id), KStatus, ""), p.status)
  }

  predicate RetryPublishes(db: Redis, id: Id) { id in db.dlq && HashOf(db, id) != map[] }

  /** What RetryDLQJob publishes for a job it found. */
  function RetrySave(db: Redis, id: Id): Save {
    JobSaveWellFormed(Reset(Decode(BLANK, HashOf(db, id))));
    Republication(HashOf(db, id))
  }

  function Do(db: Redis, op: Op): Redis {
    match op
    case Publish(p) => RedisStore.Publish(db, p)
    case Create(p) => Record(db, p)
    case Update(p) => UpdateJob(db, p)
    case DeadLetter(id) => Bury(db, id)
    case Retry(id) =>
      if RetryPublishes(db, id) then RedisStore.Publish(Unbury(db, id), RetrySave(db, id)) else Unbury(db, id)
    case CancelOne(id, at) => if Cancellable(db, id) then Cancel(db, id, at) else db
    case Phase(id, phase) => HSet(db, id, map[KPhase := phase])
  }

  /** Every member of a status set has that status in its hash; so no ID is in two sets. */
  ghost predicate Consistent(db: Redis) {
    forall status: string, id: Id :: id in Members(db, status) ==> HasStatus(db, id, status)
  }

  lemma AtMostOneSet(db: Redis, id: Id, s1: string, s2: string)
    requires Consistent(db) && id in Members(db, s1) && id in Members(db, s2)
    ensures s1 == s2 && HasStatus(db, id, s1)
  {}

  /** The ID is in no status set but this one. */
  ghost predicate OnlyIn(db: Redis, id: Id, status: string) {
    forall s: string :: id in Members(db, s) ==> s == status
  }

  /** When an operation may be called: a save that publishes must not leave the ID behind
      in another set, and UpdateJob cannot see a job filed under the empty status. */
  ghost predicate Clean(db: Redis, op: Op) {
    match op
    case Publish(p) => OnlyIn(db, p.id, p.status)
    case Create(p) => OnlyIn(db, p.id, p.status)
    case Update(p) => p.status == "" || p.id !in Members(db, "")
    case Retry(id) => RetryPublishes(db, id) ==> OnlyIn(db, RetrySave(db, id).id, QUEUED)
    case _ => true
  }

  lemma RecordIff(db: Redis, p: Save)
    requires Consistent(db)
    ensures Consistent(Record(db, p)) <==> OnlyIn(db, p.id, p.status)
  {
    var after := Record(db, p);
    assert forall s: string, id: Id ::
             id in Members(after, s) <==> id in Members(db, s) || (id == p.id && s == p.status);
    assert HasStatus(after, p.id, p.status);
    if !OnlyIn(db, p.id, p.status) {
      var s: string :| p.id in Members(db, s) && s != p.status;
      assert p.id in Members(after, s) && !HasStatus(after, p.id, s);
    }
  }

  lemma PushKeeps(db: Redis, id: Id)
    ensures Consistent(RPush(db, id)) <==> Consistent(db)
  {
    assert forall s: string, i: Id :: HasStatus(RPush(db, id), i, s) <==> HasStatus(db, i, s);
    assert forall s: string :: Members(RPush(db, id), s) == Members(db, s);
  }

  lemma PublishIff(db: Redis, p: Save)
    requires Consistent(db)
    ensures Consistent(RedisStore.Publish(db, p)) <==> OnlyIn(db, p.id, p.status)
  {
    hide Consistent, OnlyIn, Record, RPush;
    RecordIff(db, p);
    PushKeeps(Record(db, p), p.id);
  }

  // Membership after the set commands

  lemma SameSets(db: Redis, after: Redis, s: string)
    requires after.sets == db.sets
    ensures Members(after, s) == Members(db, s)
  {}

  lemma AddMembers(db: Redis, status: string, id: Id, s: string, i: Id)
    ensures i in Members(SAdd(db, status, id), s) <==> i in Members(db, s) || (i == id && s == status)
  {}

  lemma RemMembers(db: Redis, status: string, id: Id, s: string, i: Id)
    ensures i in Members(SRem(db, status, id), s) <==> i in Members(db, s) && !(i == id && s == status)
  {}

  lemma BuryMembers(db: Redis, id: Id, s: string, i: Id)
    ensures i in Members(Bury(db, id), s) <==>
            i in Members(db, s) && !(i == id && (s == QUEUED || s == PROCESSING || s == FAILED))
  {
    hide Members, SRem;
    var d0 := db.(dlq := [id] + db.dlq);
    var d1 := SRem(d0, QUEUED, id);
    RemMembers(d0, QUEUED, id, s, i);
    RemMembers(d1, PROCESSING, id, s, i);
    RemMembers(SRem(d1, PROCESSING, id), FAILED, id, s, i);
    SameSets(db, d0, s);
  }

  lemma CancelMembers(db: Redis, id: Id, at: string, s: string, i: Id)
    ensures i in Members(Cancel(db, id, at), s) <==>
            if i != id then i in Members(db, s)
            else s == CANCELLED || (id in Members(db, s) && s != QUEUED && s != PROCESSING)
  {
    hide Members, SAdd, SRem, HSet, RemoveFirst;
    var d0 := HSet(db, id, map[KStatus := CANCELLED, KFailedAt := at, KError := CANCEL_ERROR]);
    var d1 := SRem(d0, QUEUED, id);
    var d2 := SRem(d1, PROCESSING, id);
    SameSets(db, d0, s);
    RemMembers(d0, QUEUED, id, s, i);
    RemMembers(d1, PROCESSING, id, s, i);
    AddMembers(d2, CANCELLED, id, s, i);
    SameSets(SAdd(d2, CANCELLED, id), Cancel(db, id, at), s);
  }

  /** Whether a job is in set `s` after an update from status `was` to `status`. */
  predicate StaysIn(s: string, status: string, was: string, isIn: bool) {
    if status in {COMPLETED, FAILED, CANCELLED} && s in {QUEUED, PROCESSING} then false
    else if was != "" && was != status then s == status || (isIn && s != was)
    else isIn
  }

  /** Who is in set `s` once UpdateJob has moved `id` from `was` to `status`. */
  lemma ReclassifyMembers(db: Redis, id: Id, was: string, status: string, s: string, i: Id)
    ensures i in Members(Reclassify(db, id, was, status), s) <==>
            if i != id then i in Members(db, s) else StaysIn(s, status, was, id in Members(db, s))
  {
    hide Members, SAdd, SRem;
    var removed := SRem(db, was, id);
    var moved := if was != "" && was != status then SAdd(removed, status, id) else db;
    RemMembers(db, was, id, s, i);
    AddMembers(removed, status, id, s, i);
    if IsTerminal(status) {
      RemMembers(moved, QUEUED, id, s, i);
      RemMembers(SRem(moved, QUEUED, id), PROCESSING, id, s, i);
    }
  }

  lemma ReclassifyHashes(db: Redis, id: Id, was: string, status: string)
    ensures Reclassify(db, id, was, status).hashes == db.hashes
  {
    hide SAdd, SRem;
  }

  lemma SavedStatus(db: Redis, p: Save, s: string, i: Id)
    ensures HasStatus(HSet(db, p.id, p.fields), i, s) <==> if i == p.id then s == p.status else HasStatus(db, i, s)
    ensures Members(HSet(db, p.id, p.fields), s) == Members(db, s)
  {}

  /** UpdateJob, member by member. */
  lemma UpdateAt(db: Redis, p: Save, s: string, i: Id)
    requires Consistent(db)
    ensures var after := UpdateJob(db, p);
            i in Members(after, s) ==>
              HasStatus(after, i, s) || (i == p.id && s == "" != p.status && i in Members(db, ""))
    ensures var after := UpdateJob(db, p);
            i == p.id && s == "" != p.status && i in Members(db, "") ==>
              i in Members(after, s) && !HasStatus(after, i, s)
  {
    hide Members, HSet, Reclassify;
    var was := Get(HashOf(db, p.id), KStatus, "");
    var saved := HSet(db, p.id, p.fields);
    ReclassifyMembers(saved, p.id, was, p.status, s, i);
    ReclassifyHashes(saved, p.id, was, p.status);
    SavedStatus(db, p, s, i);
    assert i in Members(db, s) ==> HasStatus(db, i, s);
  }

  lemma UpdateIff(db: Redis, p: Save)
    requires Consistent(db)
    ensures Consistent(UpdateJob(db, p)) <==> p.status == "" || p.id !in Members(db, "")
  {
    hide Members, HasStatus, UpdateJob;
    if p.status != "" && p.id in Members(db, "") {
      UpdateAt(db, p, "", p.id);
    } else {
      forall s: string, i: Id | i in Members(UpdateJob(db, p), s) ensures HasStatus(UpdateJob(db, p), i, s) {
        UpdateAt(db, p, s, i);
      }
    }
  }

  lemma BuryKeeps(db: Redis, id: Id)
    requires Consistent(db)
    ensures Consistent(Bury(db, id))
  {
    hide Members;
    forall s: string, i: Id | i in Members(Bury(db, id), s) ensures HasStatus(Bury(db, id), i, s) {
      BuryMembers(db, id, s, i);
      assert HasStatus(db, i, s);
    }
  }

  lemma CancelAt(db: Redis, id: Id, at: string, s: string, i: Id)
    requires Consistent(db) && Cancellable(db, id) && i in Members(Cancel(db, id, at), s)
    ensures HasStatus(Cancel(db, id, at), i, s)
  {
    hide Members, SAdd, SRem, RemoveFirst;
    CancelMembers(db, id, at, s, i);
    CancelHashes(db, id, at);
    if s != CANCELLED || i != id {
      assert HasStatus(db, i, s);
    }
  }

  lemma CancelHashes(db: Redis, id: Id, at: string)
    ensures Cancel(db, id, at).hashes ==
            HSet(db, id, map[KStatus := CANCELLED, KFailedAt := at, KError := CANCEL_ERROR]).hashes
  {}

  lemma CancelKeeps(db: Redis, id: Id, at: string)
    requires Consistent(db) && Cancellable(db, id)
    ensures Consistent(Cancel(db, id, at))
  {
    hide Cancel;
    forall s: string, i: Id | i in Members(Cancel(db, id, at), s) ensures HasStatus(Cancel(db, id, at), i, s) {
      CancelAt(db, id, at, s, i);
    }
  }

  lemma PhaseKeeps(db: Redis, id: Id, phase: string)
    requires Consistent(db)
    ensures Consistent(HSet(db, id, map[KPhase := phase]))
  {
    var after := HSet(db, id, map[KPhase := phase]);
    assert forall s: string :: Members(after, s) == Members(db, s);
  }

  lemma UnburySame(db: Redis, id: Id)
    ensures Consistent(Unbury(db, id)) <==> Consistent(db)
    ensures forall i, s :: OnlyIn(Unbury(db, id), i, s) <==> OnlyIn(db, i, s)
  {
    assert forall s: string :: Members(Unbury(db, id), s) == Members(db, s);
    assert forall s: string, i: Id :: HasStatus(Unbury(db, id), i, s) <==> HasStatus(db, i, s);
  }

  /** One operation keeps the sets consistent exactly when it is clean. */
  lemma StepIff(db: Redis, op: Op)
    requires Consistent(db)
    ensures Consistent(Do(db, op)) <==> Clean(db, op)
  {
    hide Consistent, OnlyIn, RetrySave, RedisStore.Publish, Record, UpdateJob, Bury, Unbury, Cancel, HSet;
    match op
    case Publish(p) => PublishIff(db, p);
    case Create(p) => RecordIff(db, p);
    case Update(p) => UpdateIff(db, p);
    case DeadLetter(id) => BuryKeeps(db, id);
    case Retry(id) =>
      UnburySame(db, id);
      if RetryPublishes(db, id) {
        PublishIff(Unbury(db, id), RetrySave(db, id));
        RetryStatus(db, id);
      }
    case CancelOne(id, at) => if Cancellable(db, id) { CancelKeeps(db, id, at); }
    case Phase(id, phase) => PhaseKeeps(db, id, phase);
  }

  lemma RetryStatus(db: Redis, id: Id)
    ensures RetrySave(db, id).status == QUEUED
  {
    hide Encode, Fields, Decode;
  }

  function After(db: Redis, ops: seq<Op>): Redis {
    if ops == [] then db else Do(After(db, ops[..|ops| - 1]), ops[|ops| - 1])
  }

  /** Over whole runs: the sets agree with the hashes after every operation exactly when
      every operation was clean at its call. */
  lemma {:induction false} ConsistentIffClean(db: Redis, ops: seq<Op>)
    requires Consistent(db)
    ensures (forall n :: 0 <= n <= |ops| ==> Consistent(After(db, ops[..n])))
       <==> (forall n :: 0 <= n < |ops| ==> Clean(After(db, ops[..n]), ops[n]))
  {
    hide Consistent, Clean, Do, After;
    if ops == [] {
      assert ops[..0] == ops;
      AfterNone(db);
    } else {
      var m := |ops| - 1;
      var front := ops[..m];
      assert forall n :: 0 <= n <= m ==> front[..n] == ops[..n];
      assert ops[..|ops|] == ops;
      ConsistentIffClean(db, front);
      LastStep(db, ops);
      assert Consistent(After(db, front)) ==>
               (Consistent(After(db, ops[..|ops|])) <==> Clean(After(db, ops[..m]), ops[m]));
      if forall n :: 0 <= n < |ops| ==> Clean(After(db, ops[..n]), ops[n]) {
        assert forall n :: 0 <= n < m ==> Clean(After(db, front[..n]), front[n]);
        assert Consistent(After(db, front[..m]));
      }
      if forall n :: 0 <= n <= |ops| ==> Consistent(After(db, ops[..n])) {
        assert forall n :: 0 <= n <= m ==> Consistent(After(db, front[..n]));
        assert Clean(After(db, ops[..m]), ops[m]);
        forall n | 0 <= n < |ops| ensures Clean(After(db, ops[..n]), ops[n]) {
          if n < m { assert Clean(After(db, front[..n]), front[n]); }
        }
      }
    }
  }

  lemma AfterNone(db: Redis)
    ensures After(db, []) == db
  {}

  lemma LastStep(db: Redis, ops: seq<Op>)
    requires ops != []
    ensures var before := After(db, ops[..|ops| - 1]);
            Consistent(before) ==> (Consistent(After(db, ops)) <==> Clean(before, ops[|ops| - 1]))
  {
    hide Consistent, Clean, Do;
    var before := After(db, ops[..|ops| - 1]);
    if Consistent(before) { StepIff(before, ops[|ops| - 1]); }
  }

  // The discipline the worker follows

  /** Each hash carries its own ID, and never an empty status. */
  ghost predicate Keyed(hashes: map<Id, Hash>) {
    forall id: Id :: id in hashes ==>
      && KId in hashes[id] && hashes[id][KId] == id
      && (KStatus in hashes[id] ==> hashes[id][KStatus] != "")
  }

  ghost predicate Unfiled(db: Redis, id: Id) { forall s: string :: id !in Members(db, s) }

  predicate Distinct(s: seq<Id>) { forall i, j :: 0 <= i < j < |s| ==> s[i] != s[j] }

  /** A dead job is failed and in no status set. */
  ghost predicate Resting(db: Redis, id: Id) {
    id in db.dlq ==> HasStatus(db, id, FAILED) && Unfiled(db, id)
  }

  ghost predicate Tidy(db: Redis) {
    Consistent(db) && Keyed(db.hashes) && Distinct(db.dlq) && forall id: Id :: Resting(db, id)
  }

  /** Jobs are published once, under a fresh ID, as queued; marked failed and not yet dead
      when dead-lettered; and, once dead, left alone until retried. Cancels and phases are free
      except that a phase is written only to a job that exists. */
  ghost predicate Disciplined(db: Redis, op: Op) {
    match op
    case Publish(p) => p.id !in db.hashes && p.id !in db.dlq && p.status != ""
    case Create(p) => p.id !in db.hashes && p.id !in db.dlq && p.status != ""
    case Update(p) => p.id !in db.dlq && p.status != ""
    case DeadLetter(id) => HasStatus(db, id, FAILED) && id !in db.dlq
    case Retry(id) => true
    case CancelOne(id, _) => true
    case Phase(id, _) => id in db.hashes
  }

  lemma RetryIdentity(db: Redis, id: Id)
    requires Keyed(db.hashes) && RetryPublishes(db, id)
    ensures RetrySave(db, id).id == id
  {
    hide Encode, Fields;
  }

  lemma DisciplineIsClean(db: Redis, op: Op)
    requires Tidy(db) && Disciplined(db, op)
    ensures Clean(db, op)
  {
    if op.Retry? && RetryPublishes(db, op.id) {
      hide RetrySave;
      RetryIdentity(db, op.id);
      assert Resting(db, op.id);
    }
  }

  /** The job an operation is about. */
  function Subject(op: Op): Id {
    if op.Publish? || op.Create? || op.Update? then op.p.id else op.id
  }

  /** An operation leaves every other job's hash, sets and dead-letter entries alone. */
  ghost predicate Spares(db: Redis, after: Redis, id: Id) {
    && (id in after.hashes <==> id in db.hashes) && HashOf(after, id) == HashOf(db, id)
    && (id in after.dlq <==> id in db.dlq)
    && (forall s: string :: id in Members(after, s) <==> id in Members(db, s))
  }

  lemma {:induction false} RemoveSpares(s: seq<Id>, x: Id, id: Id)
    requires id != x
    ensures id in RemoveFirst(s, x) <==> id in s
  {
    if s != [] && s[0] != x { RemoveSpares(s[1..], x, id); }
  }

  lemma SaveSpares(db: Redis, p: Save, id: Id)
    requires id != p.id
    ensures Spares(db, RedisStore.Publish(db, p), id) && Spares(db, Record(db, p), id)
  {}

  lemma UpdateSpares(db: Redis, p: Save, id: Id)
    requires id != p.id
    ensures Spares(db, UpdateJob(db, p), id)
  {
    hide Members;
    var was, saved := Get(HashOf(db, p.id), KStatus, ""), HSet(db, p.id, p.fields);
    ReclassifyHashes(saved, p.id, was, p.status);
    forall s: string ensures id in Members(UpdateJob(db, p), s) <==> id in Members(db, s) {
      ReclassifyMembers(saved, p.id, was, p.status, s, id);
      SavedStatus(db, p, s, id);
    }
  }

  lemma RetrySpares(db: Redis, j: Id, id: Id)
    requires id != j && Keyed(db.hashes)
    ensures Spares(db, Do(db, Retry(j)), id)
  {
    hide RetrySave, RedisStore.Publish;
    RemoveSpares(db.dlq, j, id);
    if RetryPublishes(db, j) {
      RetryIdentity(db, j);
      SaveSpares(Unbury(db, j), RetrySave(db, j), id);
    }
  }

  lemma CancelSpares(db: Redis, j: Id, at: string, id: Id)
    requires id != j
    ensures Spares(db, Cancel(db, j, at), id)
  {
    hide Members, SAdd, SRem, RemoveFirst;
    CancelHashes(db, j, at);
    forall s: string ensures id in Members(Cancel(db, j, at), s) <==> id in Members(db, s) {
      CancelMembers(db, j, at, s, id);
    }
  }

  lemma DoSpares(db: Redis, op: Op, id: Id)
    requires Tidy(db) && id != Subject(op)
    ensures Spares(db, Do(db, op), id)
  {
    if op.Publish? || op.Create? { SaveSpares(db, op.p, id); }
    else if op.Update? { UpdateSpares(db, op.p, id); }
    else if op.Retry? { RetrySpares(db, op.id, id); }
    else if op.CancelOne? { CancelSpares(db, op.id, op.at, id); }
  }

  ghost predicate KeyedAt(db: Redis, id: Id) {
    id in db.hashes ==>
      && KId in db.hashes[id] && db.hashes[id][KId] == id
      && (KStatus in db.hashes[id] ==> db.hashes[id][KStatus] != "")
  }

  lemma SaveKeyed(db: Redis, p: Save)
    requires p.status != ""
    ensures KeyedAt(HSet(db, p.id, p.fields), p.id)
  {}

  lemma {:induction false} RemoveDistinct(s: seq<Id>, x: Id)
    requires Distinct(s)
    ensures Distinct(RemoveFirst(s, x)) && x !in RemoveFirst(s, x)
  {
    if s != [] {
      RemoveDistinct(s[1..], x);
      if s[0] == x { assert x !in s[1..]; }
      else {
        var rest := RemoveFirst(s[1..], x);
        forall k | 0 <= k < |rest| ensures rest[k] != s[0] {
          assert rest[k] in rest && s[0] !in s[1..];
          if rest[k] == s[0] { RemoveSpares(s[1..], x, s[0]); }
        }
      }
    }
  }

  lemma SaveRests(db: Redis, p: Save)
    requires p.id !in db.dlq && p.status != ""
    ensures var after := RedisStore.Publish(db, p); KeyedAt(after, p.id) && after.dlq == db.dlq
    ensures var after := Record(db, p); KeyedAt(after, p.id) && after.dlq == db.dlq
    ensures var after := UpdateJob(db, p); KeyedAt(after, p.id) && after.dlq == db.dlq
  {
    SaveKeyed(db, p);
  }

  lemma BuryRests(db: Redis, id: Id)
    requires Consistent(db) && KeyedAt(db, id) && HasStatus(db, id, FAILED) && id !in db.dlq && Distinct(db.dlq)
    ensures var after := Bury(db, id); KeyedAt(after, id) && Resting(after, id) && Distinct(after.dlq)
  {
    hide Members;
    forall s: string ensures id !in Members(Bury(db, id), s) {
      BuryMembers(db, id, s, id);
      if id in Members(db, s) { assert HasStatus(db, id, s); }
    }
  }

  lemma RetryRests(db: Redis, id: Id)
    requires Keyed(db.hashes) && Distinct(db.dlq)
    ensures var after := Do(db, Retry(id)); KeyedAt(after, id) && Resting(after, id) && Distinct(after.dlq)
  {
    hide RetrySave, RemoveFirst, Record;
    RemoveDistinct(db.dlq, id);
    if RetryPublishes(db, id) {
      RetryIdentity(db, id);
      RetryStatus(db, id);
      SaveRests(Unbury(db, id), RetrySave(db, id));
    }
  }

  lemma CancelRests(db: Redis, id: Id, at: string)
    requires KeyedAt(db, id) && Resting(db, id)
    ensures var after := Do(db, CancelOne(id, at)); KeyedAt(after, id) && Resting(after, id) && after.dlq == db.dlq
  {
    CancelHashes(db, id, at);
  }

  lemma PhaseRests(db: Redis, id: Id, phase: string)
    requires KeyedAt(db, id) && Resting(db, id) && id in db.hashes
    ensures var after := HSet(db, id, map[KPhase := phase]);
            KeyedAt(after, id) && Resting(after, id) && after.dlq == db.dlq
  {
    assert forall s: string :: Members(HSet(db, id, map[KPhase := phase]), s) == Members(db, s);
  }

  lemma SubjectTidy(db: Redis, op: Op)
    requires Tidy(db) && Disciplined(db, op)
    ensures var after := Do(db, op);
            KeyedAt(after, Subject(op)) && Resting(after, Subject(op)) && Distinct(after.dlq)
  {
    var id := Subject(op);
    assert KeyedAt(db, id) && Resting(db, id);
    hide KeyedAt, Resting, Keyed, Consistent, UpdateJob, Bury, Record, RedisStore.Publish, Cancel, HSet;
    if op.Publish? || op.Create? || op.Update? {
      SaveRests(db, op.p);
      LivingRests(Do(db, op), id);
    } else if op.DeadLetter? {
      BuryRests(db, id);
    } else if op.Retry? {
      RetryRests(db, id);
    } else if op.CancelOne? {
      CancelRests(db, id, op.at);
    } else {
      PhaseRests(db, id, op.phase);
    }
  }

  lemma LivingRests(db: Redis, id: Id)
    ensures id !in db.dlq ==> Resting(db, id)
  {}

  lemma SparedTidy(db: Redis, after: Redis, id: Id)
    requires Spares(db, after, id) && KeyedAt(db, id) && Resting(db, id)
    ensures KeyedAt(after, id) && Resting(after, id)
  {
    if id in after.hashes { assert after.hashes[id] == db.hashes[id]; }
  }

  lemma TidyEverywhere(db: Redis)
    requires Consistent(db) && Distinct(db.dlq) && forall id: Id :: KeyedAt(db, id) && Resting(db, id)
    ensures Tidy(db)
  {
    hide Consistent, Resting, Distinct;
    forall id: Id | id in db.hashes
      ensures KId in db.hashes[id] && db.hashes[id][KId] == id
              && (KStatus in db.hashes[id] ==> db.hashes[id][KStatus] != "")
    {
      assert KeyedAt(db, id);
    }
  }

  lemma OtherTidy(db: Redis, op: Op, id: Id)
    requires Tidy(db) && id != Subject(op)
    ensures KeyedAt(Do(db, op), id) && Resting(Do(db, op), id)
  {
    hide Do, Spares;
    DoSpares(db, op, id);
    SparedTidy(db, Do(db, op), id);
  }

  lemma DisciplineTidy(db: Redis, op: Op)
    requires Tidy(db) && Disciplined(db, op)
    ensures Tidy(Do(db, op))
  {
    DisciplineIsClean(db, op);
    assert Consistent(Do(db, op)) by { StepIff(db, op); }
    SubjectTidy(db, op);
    hide Do, Clean, Disciplined, Consistent, Resting, KeyedAt, Tidy, Distinct;
    forall id ensures KeyedAt(Do(db, op), id) && Resting(Do(db, op), id) {
      if id != Subject(op) { OtherTidy(db, op, id); }
    }
    TidyEverywhere(Do(db, op));
  }

  /** Every run of disciplined callers from an empty store, of any length: each ID is in at
      most one status set, the one its hash names, and dead jobs rest in none. */
  lemma DisciplinedRunTidy(ops: seq<Op>)
    requires forall n :: 0 <= n < |ops| ==> Disciplined(After(EMPTY, ops[..n]), ops[n])
    ensures var db := After(EMPTY, ops);
            Tidy(db) && forall id, s1, s2 :: id in Members(db, s1) && id in Members(db, s2) ==> s1 == s2
  {
    hide After, Disciplined, Members;
    TidySoFar(ops);
    var db := After(EMPTY, ops);
    forall id, s1, s2 | id in Members(db, s1) && id in Members(db, s2) ensures s1 == s2 {
      AtMostOneSet(db, id, s1, s2);
    }
  }

  lemma {:induction false} TidySoFar(ops: seq<Op>)
    requires forall n :: 0 <= n < |ops| ==> Disciplined(After(EMPTY, ops[..n]), ops[n])
    ensures Tidy(After(EMPTY, ops))
  {
    hide Do, Disciplined;
    if ops != [] {
      var m := |ops| - 1;
      assert forall n :: 0 <= n < m ==> ops[..m][..n] == ops[..n];
      TidySoFar(ops[..m]);
      DisciplineTidy(After(EMPTY, ops[..m]), ops[m]);
    }
  }
}
