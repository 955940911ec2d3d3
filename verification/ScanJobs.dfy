/** The job record and its Redis hash form. `HSET` is additive: a field that is not
    written keeps its old value, which is what the codec has to work around. */
module ScanJobs {
  import opened Text
  import opened Timestamps

  /** The fields of a job hash, `id` to `phase`; a hash maps the ones it has to text. */
  datatype Key =
    | KId | KApkPath | KOriginalFilename | KCreatedAt | KStatus | KError | KWorkerId | KRetryCount
    | KStorageKey | KStartedAt | KCompletedAt | KFailedAt | KResult | KWebhookUrl | KWebhookSecret
    | KScanTimeout | KRequestId | KFileType | KPhase

  type Hash = map<Key, string>

  datatype ScanJob = ScanJob(
    id: string, status: string, apkPath: string, fileType: string, originalFilename: string,
    createdAt: Instant, startedAt: Option<Instant>, completedAt: Option<Instant>, failedAt: Option<Instant>,
    error: string, phase: string, result: string, workerId: string, retryCount: Int64,
    webhookUrl: string, webhookSecret: string, scanTimeout: Int64, storageKey: string, requestId: string)

  const QUEUED := "queued"
  const PROCESSING := "processing"
  const COMPLETED := "completed"
  const FAILED := "failed"
  const CANCELLED := "cancelled"

  /** The zero value GetJob decodes into. */
  const BLANK := ScanJob("", "", "", "", "", ZERO_TIME, None, None, None, "", "", "", "", 0, "", "", 0, "", "")

  function FormatTimePtr(t: Option<Instant>): string {
    match t case None => "" case Some(v) => Format(v)
  }

  /** A job with its numbers and timestamps already turned into text. */
  datatype Row = Row(
    id: string, status: string, apkPath: string, fileType: string, originalFilename: string,
    createdAt: string, startedAt: string, completedAt: string, failedAt: string,
    error: string, result: string, workerId: string, retryCount: string,
    webhookUrl: string, webhookSecret: string, scanTimeout: string, storageKey: string, requestId: string)

  function Encode(j: ScanJob): Row {
    Row(j.id, j.status, j.apkPath, j.fileType, j.originalFilename,
        Format(j.createdAt), FormatTimePtr(j.startedAt), FormatTimePtr(j.completedAt), FormatTimePtr(j.failedAt),
        j.error, j.result, j.workerId, FormatInt(j.retryCount),
        j.webhookUrl, j.webhookSecret, if j.scanTimeout > 0 then FormatInt(j.scanTimeout) else "",
        j.storageKey, j.requestId)
  }

  /** Fields written on every save, so that a cleared value overwrites the old one. */
  function AlwaysWritten(r: Row): Hash {
    map[KId := r.id, KApkPath := r.apkPath, KOriginalFilename := r.originalFilename,
        KCreatedAt := r.createdAt, KStatus := r.status, KError := r.error, KWorkerId := r.workerId,
        KRetryCount := r.retryCount, KStorageKey := r.storageKey,
        KStartedAt := r.startedAt, KCompletedAt := r.completedAt, KFailedAt := r.failedAt]
  }

  /** A field written only when it has a value. */
  function Put(m: Hash, key: Key, value: string): Hash {
    if value != "" then m[key := value] else m
  }

  /** The hash fields one save writes. */
  function Fields(r: Row): Hash {
    var m := AlwaysWritten(r);
    var m := Put(Put(Put(m, KResult, r.result), KWebhookUrl, r.webhookUrl), KWebhookSecret, r.webhookSecret);
    Put(Put(Put(m, KScanTimeout, r.scanTimeout), KRequestId, r.requestId), KFileType, r.fileType)
  }

  method WriteRow(r: Row) returns (m: Hash)
    ensures m == Fields(r)
  {
    m := map[];
    m := m[KId := r.id][KApkPath := r.apkPath][KOriginalFilename := r.originalFilename];
    m := m[KCreatedAt := r.createdAt];
    m := m[KStatus := r.status][KError := r.error][KWorkerId := r.workerId];
    m := m[KRetryCount := r.retryCount][KStorageKey := r.storageKey];
    m := m[KStartedAt := r.startedAt][KCompletedAt := r.completedAt][KFailedAt := r.failedAt];
    if r.result != "" { m := m[KResult := r.result]; }
    if r.webhookUrl != "" { m := m[KWebhookUrl := r.webhookUrl]; }
    if r.webhookSecret != "" { m := m[KWebhookSecret := r.webhookSecret]; }
    if r.scanTimeout != "" { m := m[KScanTimeout := r.scanTimeout]; }
    if r.requestId != "" { m := m[KRequestId := r.requestId]; }
    if r.fileType != "" { m := m[KFileType := r.fileType]; }
  }

  /** ScanJob.ToMap. Written over any hash, the map it returns reads back as the job merged
      into what was there, exactly when the job's timestamps fit their text. */
  method ToMap(j: ScanJob) returns (m: Hash)
    ensures m == Fields(Encode(j))
    ensures forall h :: ReadsBackAs(h, m, j) <==> AllRepresentable(j)
  {
    var row := Encode(j);
    m := WriteRow(row);
    forall h ensures ReadsBackAs(h, m, j) <==> AllRepresentable(j) { SaveThenRead(h, j); }
  }

  /** Writing `m` over `h` makes it read as `j` merged into what `h` read as. */
  predicate ReadsBackAs(h: Hash, m: Hash, j: ScanJob) {
    Decode(BLANK, h + m) == Merged(Decode(BLANK, h), j)
  }

  function Get(m: Hash, key: Key, default: string): string {
    if key in m then m[key] else default
  }

  function GetTime(m: Hash, key: Key, default: Instant): Instant {
    if key in m && Parse(m[key]).Some? then Parse(m[key]).value else default
  }

  /** The empty string is the stored form of a cleared timestamp. */
  function GetTimePtr(m: Hash, key: Key, default: Option<Instant>): Option<Instant> {
    if key !in m then default
    else if m[key] == "" then None
    else if Parse(m[key]).Some? then Parse(m[key])
    else default
  }

  function GetInt(m: Hash, key: Key, default: Int64): Int64 {
    if key in m && ScanInt(m[key]).Some? then ScanInt(m[key]).value else default
  }

  /** The job read out of hash `m`, over the receiver's previous contents `r`. */
  function Decode(r: ScanJob, m: Hash): ScanJob {
    ScanJob(Get(m, KId, r.id), Get(m, KStatus, r.status), Get(m, KApkPath, r.apkPath),
            Get(m, KFileType, r.fileType), Get(m, KOriginalFilename, r.originalFilename),
            GetTime(m, KCreatedAt, r.createdAt), GetTimePtr(m, KStartedAt, r.startedAt),
            GetTimePtr(m, KCompletedAt, r.completedAt), GetTimePtr(m, KFailedAt, r.failedAt),
            Get(m, KError, r.error), Get(m, KPhase, r.phase), Get(m, KResult, r.result),
            Get(m, KWorkerId, r.workerId), GetInt(m, KRetryCount, r.retryCount),
            Get(m, KWebhookUrl, r.webhookUrl), Get(m, KWebhookSecret, r.webhookSecret),
            GetInt(m, KScanTimeout, r.scanTimeout), Get(m, KStorageKey, r.storageKey),
            Get(m, KRequestId, r.requestId))
  }

  /** The receiver of ScanJob.FromMap, whose fields are assigned only for keys that
      are present and readable. */
  class Receiver {
    var job: ScanJob

    constructor ()
      ensures job == BLANK
    {
      job := BLANK;
    }

    method FromMap(m: Hash)
      modifies this
      ensures job == Decode(old(job), m)
      ensures forall h, j :: old(job) == BLANK && m == h + Fields(Encode(j)) && AllRepresentable(j) ==>
                job == Merged(Decode(BLANK, h), j)
    {
      var id := ReadText(m, KId, job.id);
      var status := ReadText(m, KStatus, job.status);
      var apkPath := ReadText(m, KApkPath, job.apkPath);
      var originalFilename := ReadText(m, KOriginalFilename, job.originalFilename);
      var createdAt := ReadTime(m, KCreatedAt, job.createdAt);
      var startedAt := ReadTimePtr(m, KStartedAt, job.startedAt);
      var completedAt := ReadTimePtr(m, KCompletedAt, job.completedAt);
      var failedAt := ReadTimePtr(m, KFailedAt, job.failedAt);
      var error := ReadText(m, KError, job.error);
      var phase := ReadText(m, KPhase, job.phase);
      var result := ReadText(m, KResult, job.result);
      var workerId := ReadText(m, KWorkerId, job.workerId);
      var storageKey := ReadText(m, KStorageKey, job.storageKey);
      var retryCount := ReadInt(m, KRetryCount, job.retryCount);
      var webhookUrl := ReadText(m, KWebhookUrl, job.webhookUrl);
      var webhookSecret := ReadText(m, KWebhookSecret, job.webhookSecret);
      var requestId := ReadText(m, KRequestId, job.requestId);
      var fileType := ReadText(m, KFileType, job.fileType);
      var scanTimeout := ReadInt(m, KScanTimeout, job.scanTimeout);
      job := ScanJob(id, status, apkPath, fileType, originalFilename, createdAt, startedAt, completedAt, failedAt,
                     error, phase, result, workerId, retryCount, webhookUrl, webhookSecret, scanTimeout,
                     storageKey, requestId);
      assert job == Decode(old(job), m);
      hide Decode, Merged, Fields, Encode, AllRepresentable;
      forall h, j | old(job) == BLANK && m == h + Fields(Encode(j)) && AllRepresentable(j)
        ensures job == Merged(Decode(BLANK, h), j)
      {
        SaveThenRead(h, j);
      }
    }
  }

  method ReadText(m: Hash, key: Key, current: string) returns (s: string)
    ensures s == Get(m, key, current)
  {
    s := current;
    if key in m { s := m[key]; }
  }

  method ReadTime(m: Hash, key: Key, current: Instant) returns (t: Instant)
    ensures t == GetTime(m, key, current)
  {
    t := current;
    if key in m {
      var parsed := Parse(m[key]);
      if parsed.Some? { t := parsed.value; }
    }
  }

  method ReadTimePtr(m: Hash, key: Key, current: Option<Instant>) returns (t: Option<Instant>)
    ensures t == GetTimePtr(m, key, current)
  {
    t := current;
    if key in m {
      if m[key] == "" { t := None; }
      else {
        var parsed := Parse(m[key]);
        if parsed.Some? { t := parsed; }
      }
    }
  }

  method ReadInt(m: Hash, key: Key, current: Int64) returns (n: Int64)
    ensures n == GetInt(m, key, current)
  {
    n := current;
    if key in m {
      var parsed := ScanInt(m[key]);
      if parsed.Some? { n := parsed.value; }
    }
  }

  predicate RepresentablePtr(t: Option<Instant>) {
    t.Some? ==> Representable(t.value)
  }

  predicate AllRepresentable(j: ScanJob) {
    Representable(j.createdAt) && RepresentablePtr(j.startedAt)
    && RepresentablePtr(j.completedAt) && RepresentablePtr(j.failedAt)
  }

  function ToSecondPtr(t: Option<Instant>): Option<Instant> {
    match t case None => None case Some(v) => Some(ToSecond(v))
  }

  function OrElse(value: string, earlier: string): string {
    if value != "" then value else earlier
  }

  /** What a reader sees after `j` is saved over a hash that used to read as `was`. */
  function Merged(was: ScanJob, j: ScanJob): ScanJob {
    j.(createdAt := ToSecond(j.createdAt), startedAt := ToSecondPtr(j.startedAt),
       completedAt := ToSecondPtr(j.completedAt), failedAt := ToSecondPtr(j.failedAt),
       phase := was.phase, result := OrElse(j.result, was.result),
       webhookUrl := OrElse(j.webhookUrl, was.webhookUrl),
       webhookSecret := OrElse(j.webhookSecret, was.webhookSecret),
       scanTimeout := if j.scanTimeout > 0 then j.scanTimeout else was.scanTimeout,
       requestId := OrElse(j.requestId, was.requestId), fileType := OrElse(j.fileType, was.fileType))
  }

  lemma PtrReadsBack(m: Hash, key: Key, t: Option<Instant>)
    requires key in m && m[key] == FormatTimePtr(t)
    ensures GetTimePtr(m, key, None) == ToSecondPtr(t) <==> RepresentablePtr(t)
  {
    if t.Some? {
      RoundTripIffRepresentable(t.value);
      assert Format(t.value) != "";
    }
  }

  lemma CreatedReadsBack(m: Hash, t: Instant)
    requires KCreatedAt in m && m[KCreatedAt] == Format(t)
    ensures GetTime(m, KCreatedAt, ZERO_TIME) == ToSecond(t) <==> Representable(t)
  {
    RoundTripIffRepresentable(t);
  }

  lemma PutLooksUp(m: Hash, key: Key, value: string, k: Key)
    ensures var p := Put(m, key, value);
            if k == key && value != "" then k in p && p[k] == value
            else (k in p <==> k in m) && (k in m ==> p[k] == m[k])
  {}

  /** The text a save writes under one key, if it writes that key. */
  function FieldOf(r: Row, k: Key): Option<string> {
    match k
    case KId => Some(r.id) case KApkPath => Some(r.apkPath) case KOriginalFilename => Some(r.originalFilename)
    case KCreatedAt => Some(r.createdAt) case KStatus => Some(r.status) case KError => Some(r.error)
    case KWorkerId => Some(r.workerId) case KRetryCount => Some(r.retryCount) case KStorageKey => Some(r.storageKey)
    case KStartedAt => Some(r.startedAt) case KCompletedAt => Some(r.completedAt) case KFailedAt => Some(r.failedAt)
    case KResult => NonEmpty(r.result) case KWebhookUrl => NonEmpty(r.webhookUrl)
    case KWebhookSecret => NonEmpty(r.webhookSecret) case KScanTimeout => NonEmpty(r.scanTimeout)
    case KRequestId => NonEmpty(r.requestId) case KFileType => NonEmpty(r.fileType)
    case KPhase => None
  }

  function NonEmpty(s: string): Option<string> { if s != "" then Some(s) else None }

  lemma AlwaysAt(r: Row, k: Key)
    ensures var a := AlwaysWritten(r);
            if k in a then FieldOf(r, k) == Some(a[k])
            else k in {KResult, KWebhookUrl, KWebhookSecret, KScanTimeout, KRequestId, KFileType, KPhase}
  {}

  lemma FieldsAt(r: Row, k: Key)
    ensures var f := Fields(r);
            if k in f then FieldOf(r, k) == Some(f[k]) else FieldOf(r, k).None?
  {
    hide Put, AlwaysWritten;
    AlwaysAt(r, k);
    var m0 := AlwaysWritten(r);
    PutLooksUp(m0, KResult, r.result, k);
    var m1 := Put(m0, KResult, r.result);
    PutLooksUp(m1, KWebhookUrl, r.webhookUrl, k);
    var m2 := Put(m1, KWebhookUrl, r.webhookUrl);
    PutLooksUp(m2, KWebhookSecret, r.webhookSecret, k);
    var m3 := Put(m2, KWebhookSecret, r.webhookSecret);
    PutLooksUp(m3, KScanTimeout, r.scanTimeout, k);
    var m4 := Put(m3, KScanTimeout, r.scanTimeout);
    PutLooksUp(m4, KRequestId, r.requestId, k);
    PutLooksUp(Put(m4, KRequestId, r.requestId), KFileType, r.fileType, k);
  }

  /** `m` is `h` after an additive write of row `r`. */
  predicate Saved(h: Hash, r: Row, m: Hash) {
    forall k :: match FieldOf(r, k)
                case Some(v) => k in m && m[k] == v
                case None => (k in m <==> k in h) && (k in h ==> m[k] == h[k])
  }

  lemma WriteSaves(h: Hash, r: Row)
    ensures Saved(h, r, h + Fields(r))
  {
    forall k ensures match FieldOf(r, k)
                     case Some(v) => k in h + Fields(r) && (h + Fields(r))[k] == v
                     case None => (k in h + Fields(r) <==> k in h) && (k in h ==> (h + Fields(r))[k] == h[k])
    {
      FieldsAt(r, k);
    }
  }

  lemma TextsReadBack(h: Hash, r: Row, m: Hash)
    requires Saved(h, r, m)
    ensures
      && Get(m, KId, "") == r.id && Get(m, KStatus, "") == r.status && Get(m, KApkPath, "") == r.apkPath
      && Get(m, KOriginalFilename, "") == r.originalFilename && Get(m, KError, "") == r.error
      && Get(m, KWorkerId, "") == r.workerId && Get(m, KStorageKey, "") == r.storageKey
  {}

  lemma NumbersWritten(h: Hash, r: Row, m: Hash)
    requires Saved(h, r, m)
    ensures KRetryCount in m && m[KRetryCount] == r.retryCount && KCreatedAt in m && m[KCreatedAt] == r.createdAt
    ensures KStartedAt in m && m[KStartedAt] == r.startedAt && KCompletedAt in m && m[KCompletedAt] == r.completedAt
    ensures KFailedAt in m && m[KFailedAt] == r.failedAt
  {
    assert FieldOf(r, KRetryCount) == Some(r.retryCount) && FieldOf(r, KCreatedAt) == Some(r.createdAt);
    assert FieldOf(r, KStartedAt) == Some(r.startedAt) && FieldOf(r, KCompletedAt) == Some(r.completedAt);
    assert FieldOf(r, KFailedAt) == Some(r.failedAt);
  }

  lemma GivenTextsReadBack(h: Hash, r: Row, m: Hash)
    requires Saved(h, r, m)
    ensures
      && Get(m, KPhase, "") == Get(h, KPhase, "")
      && Get(m, KResult, "") == OrElse(r.result, Get(h, KResult, ""))
      && Get(m, KWebhookUrl, "") == OrElse(r.webhookUrl, Get(h, KWebhookUrl, ""))
      && Get(m, KWebhookSecret, "") == OrElse(r.webhookSecret, Get(h, KWebhookSecret, ""))
      && Get(m, KRequestId, "") == OrElse(r.requestId, Get(h, KRequestId, ""))
      && Get(m, KFileType, "") == OrElse(r.fileType, Get(h, KFileType, ""))
  {}

  lemma IntReadsBack(m: Hash, key: Key, n: Int64)
    requires key in m && m[key] == FormatInt(n)
    ensures GetInt(m, key, 0) == n
  {
    ScanFormatted(n);
  }

  /** A timeout that is not positive is not written, so the earlier one shows. */
  lemma TimeoutReadsBack(h: Hash, r: Row, m: Hash, timeout: Int64)
    requires Saved(h, r, m) && r.scanTimeout == if timeout > 0 then FormatInt(timeout) else ""
    ensures GetInt(m, KScanTimeout, 0) == if timeout > 0 then timeout else GetInt(h, KScanTimeout, 0)
  {
    assert FieldOf(r, KScanTimeout) == NonEmpty(r.scanTimeout);
    if timeout > 0 {
      assert FormatInt(timeout) != "";
      IntReadsBack(m, KScanTimeout, timeout);
    }
  }

  lemma MergedIff(h: Hash, r: Row, j: ScanJob, m: Hash)
    requires r == Encode(j) && Saved(h, r, m)
    ensures Decode(BLANK, m) == Merged(Decode(BLANK, h), j) <==> AllRepresentable(j)
  {
    hide Saved, Get, GetTime, GetTimePtr, GetInt, Format, FormatInt, FormatTimePtr, OrElse, Representable;
    TextsReadBack(h, r, m);
    GivenTextsReadBack(h, r, m);
    NumbersWritten(h, r, m);
    IntReadsBack(m, KRetryCount, j.retryCount);
    TimeoutReadsBack(h, r, m, j.scanTimeout);
    CreatedReadsBack(m, j.createdAt);
    PtrReadsBack(m, KStartedAt, j.startedAt);
    PtrReadsBack(m, KCompletedAt, j.completedAt);
    PtrReadsBack(m, KFailedAt, j.failedAt);
  }

  /** For any earlier hash contents, saving `j` and reading the hash
      back yields every mutable field of `j`, cleared ones included; creation-time
      fields come from `j` when given and otherwise survive; the phase is untouched.
      This holds exactly when the timestamps of `j` fit their text. */
  lemma SaveThenRead(h: Hash, j: ScanJob)
    ensures Decode(BLANK, h + Fields(Encode(j))) == Merged(Decode(BLANK, h), j) <==> AllRepresentable(j)
  {
    var r := Encode(j);
    WriteSaves(h, r);
    MergedIff(h, r, j, h + Fields(r));
  }

  /** The job RetryDLQJob republishes: queued, with its attempt forgotten. */
  function Reset(j: ScanJob): ScanJob {
    j.(status := QUEUED, retryCount := 0, error := "", startedAt := None, failedAt := None, workerId := "")
  }

  lemma ParsedFits(s: string)
    requires Parse(s).Some?
    ensures Representable(Parse(s).value) && ToSecond(Parse(s).value) == Parse(s).value
  {
    assert ParseZone(s[19..]).value % 60 == 0;
  }

  lemma ReadPtrFits(h: Hash, key: Key)
    ensures RepresentablePtr(GetTimePtr(h, key, None))
    ensures ToSecondPtr(GetTimePtr(h, key, None)) == GetTimePtr(h, key, None)
  {
    if key in h && Parse(h[key]).Some? { ParsedFits(h[key]); }
  }

  lemma ReadJobFits(h: Hash)
    ensures var d := Decode(BLANK, h); AllRepresentable(d) && Merged(d, d) == d
  {
    if KCreatedAt in h && Parse(h[KCreatedAt]).Some? { ParsedFits(h[KCreatedAt]); }
    ReadPtrFits(h, KStartedAt);
    ReadPtrFits(h, KCompletedAt);
    ReadPtrFits(h, KFailedAt);
  }

  /** `j` is `dead` queued again: no attempts, no error, no worker, never started or failed,
      and everything else as it was. */
  predicate QueuedAgain(dead: ScanJob, j: ScanJob) {
    && j.status == QUEUED && j.retryCount == 0 && j.error == "" && j.workerId == ""
    && j.startedAt == None && j.failedAt == None
    && j.id == dead.id && j.apkPath == dead.apkPath && j.fileType == dead.fileType
    && j.originalFilename == dead.originalFilename && j.createdAt == dead.createdAt
    && j.completedAt == dead.completedAt && j.phase == dead.phase && j.result == dead.result
    && j.webhookUrl == dead.webhookUrl && j.webhookSecret == dead.webhookSecret
    && j.scanTimeout == dead.scanTimeout && j.storageKey == dead.storageKey && j.requestId == dead.requestId
  }

  /** A retried job reads back as the dead job with exactly its six attempt fields
      reset, whatever its hash held: no stale error, worker or timestamp shows through. */
  lemma RetriedJobReadsReset(h: Hash)
    ensures QueuedAgain(Decode(BLANK, h), Decode(BLANK, h + Fields(Encode(Reset(Decode(BLANK, h))))))
  {
    ReadJobFits(h);
    SaveThenRead(h, Reset(Decode(BLANK, h)));
  }

  /** `m` has the same text as `h` under `k`, or neither has any. */
  predicate SameAt(h: Hash, m: Hash, k: Key) { (k in m <==> k in h) && (k in h ==> m[k] == h[k]) }

  lemma SameText(h: Hash, m: Hash, k: Key)
    requires SameAt(h, m, k)
    ensures Get(m, k, "") == Get(h, k, "")
  {}

  lemma SameInt(h: Hash, m: Hash, k: Key)
    requires SameAt(h, m, k)
    ensures GetInt(m, k, 0) == GetInt(h, k, 0)
  {}

  lemma SameTimes(h: Hash, m: Hash, k: Key)
    requires SameAt(h, m, k)
    ensures GetTime(m, k, ZERO_TIME) == GetTime(h, k, ZERO_TIME) && GetTimePtr(m, k, None) == GetTimePtr(h, k, None)
  {
    hide Parse;
  }

  /** The keys under which a cancel or a phase write puts nothing. */
  predicate Untouched(k: Key) { k != KStatus && k != KFailedAt && k != KError && k != KPhase }

  lemma TextsSame(h: Hash, m: Hash)
    requires forall k :: Untouched(k) ==> SameAt(h, m, k)
    ensures forall k :: Untouched(k) ==> Get(m, k, "") == Get(h, k, "") && GetInt(m, k, 0) == GetInt(h, k, 0)
    ensures forall k :: Untouched(k) ==>
              GetTime(m, k, ZERO_TIME) == GetTime(h, k, ZERO_TIME) && GetTimePtr(m, k, None) == GetTimePtr(h, k, None)
  {
    hide Get, GetInt, GetTime, GetTimePtr, SameAt, Untouched;
    forall k | Untouched(k)
      ensures Get(m, k, "") == Get(h, k, "") && GetInt(m, k, 0) == GetInt(h, k, 0)
      ensures GetTime(m, k, ZERO_TIME) == GetTime(h, k, ZERO_TIME) && GetTimePtr(m, k, None) == GetTimePtr(h, k, None)
    {
      SameText(h, m, k);
      SameInt(h, m, k);
      SameTimes(h, m, k);
    }
  }

  /** A write that leaves these fields alone leaves them alone for readers. */
  lemma CreationSame(h: Hash, m: Hash)
    requires forall k :: Untouched(k) ==> SameAt(h, m, k)
    ensures var a, b := Decode(BLANK, h), Decode(BLANK, m);
            b == a.(status := b.status, failedAt := b.failedAt, error := b.error, phase := b.phase)
  {
    hide Get, GetInt, GetTime, GetTimePtr, SameAt;
    TextsSame(h, m);
  }

  /** SetJobPhase writes one field, and readers see it: the phase changes, nothing else. */
  lemma PhaseReadsBack(h: Hash, phase: string)
    ensures Decode(BLANK, h + map[KPhase := phase]) == Decode(BLANK, h).(phase := phase)
  {
    var m := h + map[KPhase := phase];
    assert forall k :: k != KPhase ==> SameAt(h, m, k);
    CreationSame(h, m);
    SameText(h, m, KStatus);
    SameTimes(h, m, KFailedAt);
    SameText(h, m, KError);
    hide GetInt, GetTime, GetTimePtr;
  }

  /** What readers see after a cancel: its status, its message and its time, nothing else. */
  lemma CancelReadsBack(h: Hash, now: Instant, error: string)
    requires Representable(now)
    ensures Decode(BLANK, h + map[KStatus := CANCELLED, KFailedAt := Format(now), KError := error])
         == Decode(BLANK, h).(status := CANCELLED, failedAt := Some(ToSecond(now)), error := error)
  {
    hide Format, Parse;
    var m := h + map[KStatus := CANCELLED, KFailedAt := Format(now), KError := error];
    assert forall k :: k != KStatus && k != KFailedAt && k != KError ==> SameAt(h, m, k);
    CreationSame(h, m);
    SameText(h, m, KPhase);
    assert m[KFailedAt] == FormatTimePtr(Some(now));
    PtrReadsBack(m, KFailedAt, Some(now));
    assert Get(m, KStatus, "") == CANCELLED && Get(m, KError, "") == error;
    hide Get, GetInt, GetTime, GetTimePtr, SameAt;
  }
}
