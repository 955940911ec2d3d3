/** The Redis keys the job queue lives in, and the atomic commands and Lua scripts that
    change them. Lists are sequences with the head first, sets are sets, hashes are maps.
    A missing list or set is the empty one, as in Redis. */
module RedisStore {
  import opened Text
  import opened ScanJobs

  type Id = string
  type Worker = string

  /** A worker registration; `None` is a heartbeat that is missing or not a timestamp. */
  datatype Registration = Registration(lastHeartbeat: Option<int>)

  datatype Redis = Redis(
    queue: seq<Id>,                       // morf:job_queue
    processing: map<Worker, seq<Id>>,     // morf:processing:<worker>
    dlq: seq<Id>,                         // morf:dlq
    sets: map<string, set<Id>>,           // morf:jobs:status:<status>
    hashes: map<Id, Hash>,                // morf:jobs:<id>
    leases: map<Id, Worker>,              // morf:jobs:lease:<id>
    workers: map<Worker, Registration>)   // morf:workers:<worker>

  const EMPTY := Redis([], map[], [], map[], map[], map[], map[])

  function Proc(db: Redis, w: Worker): seq<Id> {
    if w in db.processing then db.processing[w] else []
  }

  function Members(db: Redis, status: string): set<Id> {
    if status in db.sets then db.sets[status] else {}
  }

  function HashOf(db: Redis, id: Id): Hash {
    if id in db.hashes then db.hashes[id] else map[]
  }

  /** LREM list 1 x: the list without its first `x`. */
  function RemoveFirst(s: seq<Id>, x: Id): seq<Id> {
    if s == [] then [] else if s[0] == x then s[1..] else [s[0]] + RemoveFirst(s[1..], x)
  }

  lemma {:induction false} RemoveAbsent(s: seq<Id>, x: Id)
    requires x !in s
    ensures RemoveFirst(s, x) == s
  {
    if s != [] { RemoveAbsent(s[1..], x); }
  }

  // Single commands

  function SetProc(db: Redis, w: Worker, list: seq<Id>): Redis {
    db.(processing := db.processing[w := list])
  }

  function HSet(db: Redis, id: Id, fields: Hash): (r: Redis)
    ensures r == db.(hashes := r.hashes)
  {
    db.(hashes := db.hashes[id := HashOf(db, id) + fields])
  }

  function SAdd(db: Redis, status: string, id: Id): (r: Redis)
    ensures r == db.(sets := r.sets)
  {
    db.(sets := db.sets[status := Members(db, status) + {id}])
  }

  function SRem(db: Redis, status: string, id: Id): (r: Redis)
    ensures r == db.(sets := r.sets)
  {
    db.(sets := db.sets[status := Members(db, status) - {id}])
  }

  function RPush(db: Redis, id: Id): Redis {
    db.(queue := db.queue + [id])
  }

  /** BLMOVE job_queue processing LEFT RIGHT, when there is a job to move. */
  function Move(db: Redis, w: Worker): Redis
    requires db.queue != []
  {
    SetProc(db, w, Proc(db, w) + [db.queue[0]]).(queue := db.queue[1..])
  }

  /** LREM processing:<w> 1 id. */
  function Take(db: Redis, w: Worker, id: Id): Redis {
    if id in Proc(db, w) then SetProc(db, w, RemoveFirst(Proc(db, w), id)) else db
  }

  // Lua scripts

  /** What a publisher sends: the job's ID, its status and its flattened hash fields. */
  datatype Publication = Publication(id: Id, status: string, fields: Hash)

  function PublicationOf(job: ScanJob): Publication {
    Publication(job.id, job.status, Fields(Encode(job)))
  }

  /** What RetryDLQJob publishes for the hash it read. */
  function Republication(h: Hash): Publication {
    PublicationOf(Reset(Decode(BLANK, h)))
  }

  /** The hash and status-set half of publishing a job. */
  function Record(db: Redis, p: Publication): (r: Redis)
    ensures r == db.(hashes := r.hashes, sets := r.sets)
  {
    SAdd(HSet(db, p.id, p.fields), p.status, p.id)
  }

  /** enqueueScript: hash, status set and queue entry in one unit. */
  function Publish(db: Redis, p: Publication): (r: Redis)
    ensures r == db.(hashes := r.hashes, sets := r.sets, queue := db.queue + [p.id])
  {
    RPush(Record(db, p), p.id)
  }

  /** The depth check of enqueueWithLimitScript; a limit of zero or less admits everything. */
  predicate Admits(db: Redis, limit: int, count: int) {
    limit <= 0 || |db.queue| + count <= limit
  }

  /** moveToDLQScript. */
  function Bury(db: Redis, id: Id): (r: Redis)
    ensures r == db.(sets := r.sets, dlq := [id] + db.dlq)
  {
    SRem(SRem(SRem(db.(dlq := [id] + db.dlq), QUEUED, id), PROCESSING, id), FAILED, id)
  }

  /** retryDLQRemoveScript, the half that removes. */
  function Unbury(db: Redis, id: Id): Redis {
    db.(dlq := RemoveFirst(db.dlq, id))
  }

  predicate HasStatus(db: Redis, id: Id, status: string) {
    id in db.hashes && KStatus in db.hashes[id] && db.hashes[id][KStatus] == status
  }

  predicate Cancellable(db: Redis, id: Id) {
    HasStatus(db, id, QUEUED) || HasStatus(db, id, PROCESSING)
  }

  const CANCEL_ERROR := "Job cancelled by user"

  /** cancelJobScript once the status has been found cancellable. `now` is the
      timestamp text ARGV[3]. */
  function Cancel(db: Redis, id: Id, now: string): (r: Redis)
    ensures r == db.(hashes := r.hashes, sets := r.sets,
                     queue := if HasStatus(db, id, QUEUED) then RemoveFirst(db.queue, id) else db.queue)
  {
    var marked := HSet(db, id, map[KStatus := CANCELLED, KFailedAt := now, KError := CANCEL_ERROR]);
    var moved := SAdd(SRem(SRem(marked, QUEUED, id), PROCESSING, id), CANCELLED, id);
    if HasStatus(db, id, QUEUED) then moved.(queue := RemoveFirst(db.queue, id)) else moved
  }

  // Leases

  /** CheckJobLease: a missing (or empty) owner never blocks. */
  predicate OwnsLease(db: Redis, id: Id, w: Worker) {
    id !in db.leases || db.leases[id] == "" || db.leases[id] == w
  }

  // Worker registrations

  /** reapWorker's verdict: a named, registered worker with a readable heartbeat at least
      `staleAfter` old. */
  predicate Stale(db: Redis, w: Worker, now: int, staleAfter: int) {
    && w != "" && w in db.workers && db.workers[w].lastHeartbeat.Some?
    && now - db.workers[w].lastHeartbeat.value >= staleAfter
  }
}
