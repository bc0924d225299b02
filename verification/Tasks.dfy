/** The durable task queue: its records, its in-memory index, and every operation on them. */
module Tasks {
  import opened Wrappers

  const U64_MAX: nat := 0xFFFF_FFFF_FFFF_FFFF
  const MAX_PAYLOAD: nat := 64 * 1024
  const MAX_ATTEMPTS: nat := 5

  type u64 = x: nat | x <= U64_MAX
  type Tenant = nat
  type Generation = nat
  type Payload = seq<nat>

  datatype Status = Pending | Running | Completed | Failed | Cancelled

  /** A record's name: its tenant's directory and its id there. */
  datatype Key = Key(tenant: Tenant, id: string)

  datatype Task = Task(
    tenant: Tenant,
    id: string,
    payload: Payload,
    runAt: u64,
    requestedRunAt: u64,
    generation: Generation,
    intervalMs: Option<u64>,
    status: Status,
    attempts: nat,
    occurrence: u64,
    result: Payload,
    error: Option<string>)

  /** What names one occurrence to the guest, across its retries. */
  datatype RunId = RunId(id: string, generation: Generation, occurrence: nat)

  function RunIdOf(task: Task): RunId {
    RunId(task.id, task.generation, task.occurrence)
  }

  function KeyOf(task: Task): Key {
    Key(task.tenant, task.id)
  }

  predicate Terminal(status: Status) {
    status.Completed? || status.Failed? || status.Cancelled?
  }

  predicate ValidId(id: string) {
    0 < |id| <= 64 && forall c :: c in id ==> 'a' <= c <= 'z' || 'A' <= c <= 'Z' || '0' <= c <= '9' || c == '-' || c == '_'
  }

  predicate ValidInterval(interval: Option<u64>) {
    interval.Some? ==> interval.value >= 1000
  }

  predicate ValidRecord(k: Key, task: Task) {
    && ValidId(task.id) && KeyOf(task) == k
    && |task.payload| <= MAX_PAYLOAD && |task.result| <= MAX_PAYLOAD
    && ValidInterval(task.intervalMs)
  }

  datatype Limits = Limits(maxRecords: nat, perTenant: nat)

  /** A record's place in the deadline queue. */
  datatype Entry = Entry(at: u64, key: Key)

  /** The in-memory index over the durable records. */
  datatype Records = Records(tasks: map<Key, Task>, due: set<Entry>, active: set<Key>, last: Option<Tenant>)

  datatype Error = InvalidId | PayloadTooLong | IntervalTooShort | DifferentInput | QuotaReached | NoSuchTask
                 | StillActive | Disappeared | NotBegun | OccurrenceOverflow | ZeroInterval | InvalidRecord | NotAnchored

  /** What a background run came to: the tenant was busy, a result, or a failure. */
  datatype Outcome = Busy | Success(bytes: Payload) | Failure(message: string)

  function SaturatingAdd(a: nat, b: nat): u64 {
    if a + b <= U64_MAX then a + b else U64_MAX
  }

  // ---- the operations, as functions of the records ------------------------

  function NewTask(tenant: Tenant, id: string, payload: Payload, runAt: u64, interval: Option<u64>, generation: Generation): Task {
    Task(tenant, id, payload, runAt, runAt, generation, interval, Pending, 0, 0, [], None)
  }

  function TenantCount(tasks: map<Key, Task>, tenant: Tenant): nat {
    |set k | k in tasks && tasks[k].tenant == tenant|
  }

  /** The input checks, then the answer for an id already in use, then the quotas. */
  function EnqueueCheck(r: Records, limits: Limits, task: Task): Result<bool, Error> {
    if !ValidId(task.id) then Err(InvalidId)
    else if |task.payload| > MAX_PAYLOAD then Err(PayloadTooLong)
    else if !ValidInterval(task.intervalMs) then Err(IntervalTooShort)
    else if KeyOf(task) in r.tasks then
      var existing := r.tasks[KeyOf(task)];
      if existing.payload == task.payload && existing.intervalMs == task.intervalMs
         && existing.requestedRunAt == task.requestedRunAt then Ok(false)
      else Err(DifferentInput)
    else if |r.tasks| < limits.maxRecords && TenantCount(r.tasks, task.tenant) < limits.perTenant then Ok(true)
    else Err(QuotaReached)
  }

  /** A record as its caller asked for it, and nothing done on it yet. */
  predicate Fresh(task: Task, k: Key, payload: Payload, runAt: u64, interval: Option<u64>, generation: Generation) {
    && task.tenant == k.tenant && task.id == k.id && task.payload == payload && task.intervalMs == interval
    && task.runAt == runAt && task.requestedRunAt == runAt && task.generation == generation
    && task.status == Pending && task.attempts == 0 && task.occurrence == 0 && task.result == [] && task.error.None?
  }

  /** Whether an enqueue is answered well: input in bounds, and either the very input the id was enqueued with or room
      for one record more, in all and of this tenant. */
  predicate Accepts(r: Records, limits: Limits, k: Key, payload: Payload, runAt: u64, interval: Option<u64>) {
    && ValidId(k.id) && |payload| <= MAX_PAYLOAD && ValidInterval(interval)
    && if k in r.tasks then
         r.tasks[k].payload == payload && r.tasks[k].intervalMs == interval && r.tasks[k].requestedRunAt == runAt
       else |r.tasks| < limits.maxRecords && |set o | o in r.tasks && r.tasks[o].tenant == k.tenant| < limits.perTenant
  }

  function Enqueued(r: Records, task: Task): Records {
    r.(tasks := r.tasks[KeyOf(task) := task], due := r.due + {Entry(task.runAt, KeyOf(task))})
  }

  function CancelledTask(r: Records, k: Key): Records
    requires k in r.tasks
  {
    r.(tasks := r.tasks[k := r.tasks[k].(status := Cancelled)], due := set e | e in r.due && e.key != k)
  }

  predicate Forgettable(r: Records, k: Key) {
    k !in r.active && k in r.tasks && Terminal(r.tasks[k].status)
  }

  function Forgotten(r: Records, k: Key): Records {
    r.(tasks := r.tasks - {k})
  }

  /** The records that may be handed out. */
  predicate Ready(r: Records, now: u64, e: Entry) {
    e in r.due && e.at <= now && e.key in r.tasks
  }

  /** How far ahead of the last tenant served this one is, going round once. Tenants are compared as
      the numbers their sixteen bytes spell. */
  predicate Ahead(last: Option<Tenant>, a: Tenant, b: Tenant) {
    var wrapA := last.Some? && a <= last.value;
    var wrapB := last.Some? && b <= last.value;
    if wrapA != wrapB then !wrapA else a < b
  }

  /** Ids in the order the index keeps them. */
  predicate IdNoLater(a: string, b: string) {
    a == "" || (b != "" && (a[0] < b[0] || (a[0] == b[0] && IdNoLater(a[1..], b[1..]))))
  }

  /** Tenants take turns: those after the last one served come before those at or before it; within a
      tenant the earliest deadline goes first, and of equal ones the id that comes first. */
  predicate NoLater(last: Option<Tenant>, a: Entry, b: Entry) {
    if a.key.tenant != b.key.tenant then Ahead(last, a.key.tenant, b.key.tenant)
    else a.at < b.at || (a.at == b.at && IdNoLater(a.key.id, b.key.id))
  }

  lemma {:induction false} IdOrder(a: string, b: string, c: string)
    ensures IdNoLater(a, a)
    ensures IdNoLater(a, b) || IdNoLater(b, a)
    ensures IdNoLater(a, b) && IdNoLater(b, a) ==> a == b
    ensures IdNoLater(a, b) && IdNoLater(b, c) ==> IdNoLater(a, c)
    decreases |a| + |b| + |c|
  {
    if a != "" {
      IdOrder(a[1..], if b == "" then "" else b[1..], if c == "" then "" else c[1..]);
      if b != "" && a[0] == b[0] && a[1..] == b[1..] {
        assert a == [a[0]] + a[1..] && b == [b[0]] + b[1..];
      }
    }
  }

  /** The order is one: whose turn it is, is settled between any two records. */
  lemma TurnsInOrder(last: Option<Tenant>, a: Entry, b: Entry, c: Entry)
    ensures NoLater(last, a, a)
    ensures NoLater(last, a, b) || NoLater(last, b, a)
    ensures NoLater(last, a, b) && NoLater(last, b, a) ==> a == b
    ensures NoLater(last, a, b) && NoLater(last, b, c) ==> NoLater(last, a, c)
  {
    IdOrder(a.key.id, b.key.id, c.key.id);
    hide IdNoLater;
  }

  ghost predicate IsPick(r: Records, now: u64, e: Entry) {
    Ready(r, now, e) && forall o :: Ready(r, now, o) ==> NoLater(r.last, e, o)
  }

  /** There is one record whose turn it is. */
  lemma PickUnique(r: Records, now: u64, d: Entry, e: Entry)
    requires IsPick(r, now, d) && IsPick(r, now, e)
    ensures d == e
  {
    TurnsInOrder(r.last, d, e, e);
    hide NoLater;
  }

  function Picked(r: Records, e: Entry): Records {
    r.(due := r.due - {e}, last := Some(e.key.tenant), active := r.active + {e.key})
  }

  function Begun(task: Task): Task {
    task.(status := Running, attempts := task.attempts + 1)
  }

  /** The first instant after `now` at the job's phase of its interval, if it fits the clock. */
  function NextRun(now: u64, interval: nat, phase: nat): u64
    requires phase < interval
  {
    var position := now % interval;
    var delay := if phase > position then phase - position else interval - (position - phase);
    SaturatingAdd(now, delay)
  }

  function Shift(k: nat): nat {
    if k == 0 then 1 else 2 * Shift(k - 1)
  }

  /** The job's stable phase: a hash of its key, modulo the interval. */
  function Offset(hash: Key -> nat, k: Key, interval: nat): nat
    requires interval > 0
  {
    hash(k) % interval
  }

  function AfterSuccess(task: Task, bytes: Payload, now: u64, hash: Key -> nat): Result<Task, Error> {
    var done := task.(result := bytes, error := None);
    if task.intervalMs.None? then Ok(done.(status := Completed))
    else if task.intervalMs.value == 0 then Err(ZeroInterval)
    else if task.occurrence == U64_MAX then Err(OccurrenceOverflow)
    else
      var interval := task.intervalMs.value;
      Ok(done.(status := Pending, attempts := 0, occurrence := task.occurrence + 1,
               runAt := NextRun(now, interval, Offset(hash, KeyOf(task), interval))))
  }

  function AfterFailure(task: Task, message: string, now: u64): Task {
    task.(error := Some(message[..if |message| < 512 then |message| else 512]),
          status := if task.attempts >= MAX_ATTEMPTS then Failed else Pending,
          runAt := SaturatingAdd(now, 1000 * Shift(if task.attempts < 8 then task.attempts else 8)))
  }

  function Outcomes(task: Task, outcome: Outcome, now: u64, hash: Key -> nat): Result<Task, Error>
    requires !outcome.Busy?
  {
    if !task.status.Running? then Err(NotBegun)
    else if outcome.Success? then AfterSuccess(task, outcome.bytes, now, hash)
    else Ok(AfterFailure(task, outcome.message, now))
  }

  // ---- when a record runs again -------------------------------------------

  lemma ModOfSum(a: nat, d: nat, n: nat)
    requires n > 0 && a % n + d < 2 * n
    ensures (a + d) % n == if a % n + d < n then a % n + d else a % n + d - n
  {
    var q := a / n;
    assert a == n * q + a % n;
    if a % n + d < n {
      UniqueMod(a + d, n, q, a % n + d);
    } else {
      assert n * (q + 1) == n * q + n;
      UniqueMod(a + d, n, q + 1, a % n + d - n);
    }
  }

  lemma UniqueMod(x: nat, n: nat, q: nat, r: nat)
    requires n > 0 && x == n * q + r && r < n
    ensures x % n == r
  {
    var p := x / n;
    assert x == n * p + x % n;
    assert p < q ==> n * (p + 1) <= n * q;
    assert p > q ==> n * (q + 1) <= n * p;
    assert n * (p + 1) == n * p + n && n * (q + 1) == n * q + n;
  }

  /** A recurring job next runs at the least instant after now that is at its phase, or at the end of
      the clock if that comes first: whatever number of intervals was missed, they come to one run. */
  lemma NextRunIsLeast(now: u64, interval: nat, phase: nat) returns (least: nat)
    requires phase < interval
    ensures now < least <= now + interval && least % interval == phase
    ensures forall t: nat :: now < t && t % interval == phase ==> least <= t
    ensures NextRun(now, interval, phase) == if least <= U64_MAX then least else U64_MAX
  {
    var position := now % interval;
    var delay := if phase > position then phase - position else interval - (position - phase);
    least := now + delay;
    ModOfSum(now, delay, interval);
    forall t: nat | now < t && t % interval == phase ensures least <= t {
      if t < now + delay {
        ModOfSum(now, t - now, interval);
      }
    }
  }

  predicate AtPhase(t: nat, interval: nat, phase: nat)
    requires interval > 0
  {
    t % interval == phase
  }

  /** The least later instant at the phase, or the end of the clock if none is left before it. */
  ghost predicate RunsNext(runAt: u64, now: u64, interval: nat, phase: nat)
    requires interval > 0
  {
    if exists t: nat :: now < t <= U64_MAX && AtPhase(t, interval, phase) then
      && now < runAt && AtPhase(runAt, interval, phase)
      && forall t: nat :: now < t && AtPhase(t, interval, phase) ==> runAt <= t
    else runAt == U64_MAX
  }

  /** A recurring job that succeeds is pending again, at the least later instant at its own phase of its interval. */
  lemma SuccessRunsNext(task: Task, bytes: Payload, now: u64, hash: Key -> nat)
    requires Outcomes(task, Success(bytes), now, hash).Ok? && task.intervalMs.Some?
    ensures var next, interval := Outcomes(task, Success(bytes), now, hash).value, task.intervalMs.value;
            next.status.Pending? && interval > 0 && RunsNext(next.runAt, now, interval, hash(KeyOf(task)) % interval)
  {
    var interval := task.intervalMs.value;
    var phase := hash(KeyOf(task)) % interval;
    var least := NextRunIsLeast(now, interval, phase);
    assert AtPhase(least, interval, phase);
  }

  /** How long a record waits after its n-th failed attempt, in milliseconds. */
  const RETRY_DELAYS: seq<nat> := [1000, 2000, 4000, 8000, 16_000, 32_000, 64_000, 128_000, 256_000]

  /** A failed attempt waits twice as long as the one before it, up to the eighth, and as long as that from then on. It
      keeps the beginning of what was said of it. */
  lemma FailureWaits(task: Task, message: string, now: u64, hash: Key -> nat)
    requires Outcomes(task, Failure(message), now, hash).Ok?
    ensures var next, delay := Outcomes(task, Failure(message), now, hash).value, RETRY_DELAYS[if task.attempts < 8 then task.attempts else 8];
            && next.runAt == (if now + delay <= U64_MAX then now + delay else U64_MAX)
            && next.error.Some? && next.error.value <= message
            && (|message| <= 512 ==> next.error.value == message) && (|message| > 512 ==> |next.error.value| == 512)
  {
    var k := if task.attempts < 8 then task.attempts else 8;
    assert Shift(0) == 1 && Shift(1) == 2 && Shift(2) == 4 && Shift(3) == 8 && Shift(4) == 16;
    assert Shift(5) == 32 && Shift(6) == 64 && Shift(7) == 128 && Shift(8) == 256;
    assert 1000 * Shift(k) == RETRY_DELAYS[k];
  }

  /** A finished attempt in the index: stored, due again if it is pending, and active no more. */
  function Stored(r: Records, k: Key, task: Task): Records {
    r.(tasks := r.tasks[k := task], active := r.active - {k},
       due := if task.status.Pending? then r.due + {Entry(task.runAt, k)} else r.due)
  }

  /** An interrupted attempt is retried under its own occurrence, unless it was the last. */
  function Recovered(task: Task): Task {
    if task.status.Running? then
      task.(status := if task.attempts >= MAX_ATTEMPTS then Failed else Pending,
            error := Some("enclave stopped during execution"))
    else task
  }

  /** When a record read back at boot becomes due: not before its time, nor before some jitter. */
  function RecoveredDue(task: Task, now: u64, hash: Key -> nat): u64 {
    var jittered := SaturatingAdd(now, Offset(hash, KeyOf(task), 1000));
    if task.runAt >= jittered then task.runAt else jittered
  }

  function Scanned(files: map<Key, Task>, keys: set<Key>, now: u64, hash: Key -> nat): (r: Records)
    requires keys <= files.Keys
    ensures r.tasks.Keys == keys
  {
    Records(map k | k in keys :: Recovered(files[k]),
            set k | k in keys && Recovered(files[k]).status.Pending? :: Entry(RecoveredDue(files[k], now, hash), k),
            {}, None)
  }

  // ---- the queue itself ---------------------------------------------------

  /** The queue an enclave keeps. `files` is what its record writes have left on the tenants' pools. */
  class TaskQueue {
    const limits: Limits
    const hash: Key -> nat
    var tasks: map<Key, Task>
    var due: set<Entry>
    var active: set<Key>
    var lastTenant: Option<Tenant>
    var files: map<Key, Task>

    constructor (limits: Limits, hash: Key -> nat, files: map<Key, Task>)
      ensures this.limits == limits && this.hash == hash && this.files == files
      ensures Index() == Records(map[], {}, {}, None)
    {
      this.limits := limits;
      this.hash := hash;
      this.files := files;
      tasks, due, active, lastTenant := map[], {}, {}, None;
    }

    ghost function Index(): Records
      reads this
    {
      Records(tasks, due, active, lastTenant)
    }

    /** Read back every record of the tenants flagged as having background work. */
    method Open(flagged: set<Tenant>, now: u64) returns (r: Result<(), Error>)
      requires Index() == Records(map[], {}, {}, None)
      modifies this
      ensures var found := set k | k in old(files) && k.tenant in flagged;
              && (r.Ok? <==> |found| <= limits.maxRecords && forall k :: k in found ==> ValidRecord(k, old(files)[k]))
              && (r.Ok? ==> Index() == Scanned(old(files), found, now, hash) && files == old(files) + tasks)
    {
      hide Scanned, ValidRecord, HasRead;
      var names := set k | k in files && k.tenant in flagged;
      ghost var found, disk := names, files;
      NothingRead(now);
      ghost var read: set<Key> := {};
      while names != {}
        invariant names !! read && names + read == found
        invariant |read| <= limits.maxRecords && forall k :: k in read ==> ValidRecord(k, disk[k])
        invariant HasRead(disk, read, now)
        decreases |names|
      {
        var k :| k in names;
        Larger(found, read, k);
        WhatIsRead(disk, read, now);
        if |tasks| >= limits.maxRecords {
          return Err(QuotaReached);
        }
        if !ValidRecord(k, files[k]) {
          return Err(InvalidRecord);
        }
        LoadNext(k, now, disk, read);
        Moved(names, read, k);
        names := names - {k};
        read := read + {k};
      }
      WhatIsRead(disk, read, now);
      r := Ok(());
    }

    /** These records of the disk are in the index, and written back where they had to be. */
    ghost predicate HasRead(disk: map<Key, Task>, read: set<Key>, now: u64)
      reads this
    {
      read <= disk.Keys && Index() == Scanned(disk, read, now, hash) && files == disk + tasks
    }

    lemma NothingRead(now: u64)
      requires Index() == Records(map[], {}, {}, None)
      ensures HasRead(files, {}, now)
    {
      ScannedNone(files, now, hash);
    }

    lemma WhatIsRead(disk: map<Key, Task>, read: set<Key>, now: u64)
      requires HasRead(disk, read, now)
      ensures Index() == Scanned(disk, read, now, hash) && files == disk + tasks && |tasks| == |read|
      ensures forall k :: k in disk && k !in read ==> k in files && files[k] == disk[k]
    {
      assert tasks.Keys == read;
      assert |tasks| == |tasks.Keys|;
    }

    /** One more of the records found on the disk, after those read before it. */
    method LoadNext(k: Key, now: u64, ghost disk: map<Key, Task>, ghost read: set<Key>)
      requires k in disk && k !in read && ValidRecord(k, disk[k]) && HasRead(disk, read, now)
      requires k in files && files[k] == disk[k]
      modifies this
      ensures HasRead(disk, read + {k}, now)
    {
      hide Scanned, Recovered, RecoveredDue, ValidRecord;
      ghost var before := tasks;
      KeyOfValid(k, files[k]);
      Load(k, now);
      ScannedOneMore(disk, read, k, now, hash);
      SumOfUpdates(disk, before, k, tasks[k]);
    }

    method Load(k: Key, now: u64)
      requires k in files && KeyOf(files[k]) == k
      modifies this
      ensures var task := Recovered(old(files)[k]);
              && tasks == old(tasks)[k := task] && files == old(files)[k := task]
              && due == old(due) + (if task.status.Pending? then {Entry(RecoveredDue(old(files)[k], now, hash), k)} else {})
              && active == old(active) && lastTenant == old(lastTenant)
    {
      var task := files[k];
      if task.status.Running? {
        task := Recovered(task);
        Write(task);
      }
      if task.status.Pending? {
        due := due + {Entry(RecoveredDue(task, now, hash), k)};
      }
      tasks := tasks[k := task];
    }

    /** The record is on the tenant's pool before it is in the index. */
    method Write(task: Task)
      modifies `files
      ensures files == old(files)[KeyOf(task) := task]
    {
      files := files[KeyOf(task) := task];
    }

    method Enqueue(tenant: Tenant, id: string, payload: Payload, runAt: u64, interval: Option<u64>, generation: Generation)
      returns (r: Result<(), Error>)
      modifies this
      ensures var task := NewTask(tenant, id, payload, runAt, interval, generation);
              var check := EnqueueCheck(old(Index()), limits, task);
              && (r.Ok? <==> check.Ok?) && (r.Err? ==> r.error == check.error)
              && (check == Ok(true) ==> Index() == Enqueued(old(Index()), task) && files == old(files)[KeyOf(task) := task])
              && (check != Ok(true) ==> Index() == old(Index()) && files == old(files))
      ensures var k := Key(tenant, id);
              && (r.Ok? <==> Accepts(old(Index()), limits, k, payload, runAt, interval))
              && (r.Ok? && k !in old(tasks) ==>
                    && k in tasks && Fresh(tasks[k], k, payload, runAt, interval, generation)
                    && tasks == old(tasks)[k := tasks[k]] && files == old(files)[k := tasks[k]]
                    && due == old(due) + {Entry(runAt, k)})
              && (k in old(tasks) || r.Err? ==> Index() == old(Index()) && files == old(files))
    {
      var task := NewTask(tenant, id, payload, runAt, interval, generation);
      var check := EnqueueCheck(Records(tasks, due, active, lastTenant), limits, task);
      if check.Err? {
        return Err(check.error);
      }
      if check.value {
        Write(task);
        due := due + {Entry(runAt, KeyOf(task))};
        tasks := tasks[KeyOf(task) := task];
      }
      r := Ok(());
    }

    method Cancel(tenant: Tenant, id: string) returns (r: Result<(), Error>)
      modifies this
      ensures var k := Key(tenant, id);
              && (r.Ok? <==> k in old(tasks))
              && (r.Ok? ==> Index() == CancelledTask(old(Index()), k))
              && (r.Ok? ==> files == old(files)[KeyOf(tasks[k]) := tasks[k]])
              && (r.Err? ==> Index() == old(Index()) && files == old(files))
    {
      var k := Key(tenant, id);
      if k !in tasks {
        return Err(NoSuchTask);
      }
      var task := tasks[k].(status := Cancelled);
      Write(task);
      tasks := tasks[k := task];
      due := set e | e in due && e.key != k;
      r := Ok(());
    }

    method Forget(tenant: Tenant, id: string) returns (r: Result<(), Error>)
      modifies this
      ensures var k := Key(tenant, id);
              && (r.Ok? <==> Forgettable(old(Index()), k))
              && (r.Ok? ==> Index() == Forgotten(old(Index()), k) && files == old(files) - {k})
              && (r.Err? ==> Index() == old(Index()) && files == old(files))
    {
      var k := Key(tenant, id);
      if k in active {
        return Err(StillActive);
      }
      if k !in tasks {
        return Err(NoSuchTask);
      }
      if !Terminal(tasks[k].status) {
        return Err(StillActive);
      }
      files := files - {k};
      tasks := tasks - {k};
      r := Ok(());
    }

    /** Hand out the record whose turn it is. */
    method Due(now: u64) returns (task: Option<Task>)
      modifies this
      ensures task.None? ==> Index() == old(Index()) && forall e :: !Ready(old(Index()), now, e)
      ensures task.Some? ==> exists e :: IsPick(old(Index()), now, e) && Index() == Picked(old(Index()), e) && task.value == tasks[e.key]
      ensures files == old(files)
    {
      hide NoLater;
      var left := due;
      var best: Option<Entry> := None;
      ghost var r := Index();
      while left != {}
        invariant left <= due && Index() == r && files == old(files)
        invariant best.Some? ==> Ready(r, now, best.value)
        invariant forall e :: Ready(r, now, e) && e !in left ==> best.Some? && NoLater(r.last, best.value, e)
        decreases |left|
      {
        var e :| e in left;
        if e.at <= now && e.key in tasks && (best.None? || !NoLater(lastTenant, best.value, e)) {
          TurnsInOrder(r.last, e, e, e);
          forall o | Ready(r, now, o) && o !in left && best.Some? ensures NoLater(r.last, e, o) {
            TurnsInOrder(r.last, best.value, e, e);
            TurnsInOrder(r.last, e, best.value, o);
          }
          best := Some(e);
        }
        left := left - {e};
      }
      if best.None? {
        return None;
      }
      assert IsPick(r, now, best.value);
      due := due - {best.value};
      lastTenant := Some(best.value.key.tenant);
      active := active + {best.value.key};
      task := Some(tasks[best.value.key]);
    }

    /** Spend an attempt: on disk, in the index, and then anchored, before the run may start. `anchored` is what the
        anchor answers; the attempt is spent either way. */
    method Begin(k: Key, anchored: bool) returns (r: Result<bool, Error>)
      modifies this
      ensures k !in old(tasks) ==> r == Err(Disappeared)
      ensures k in old(tasks) ==>
                r == if !old(tasks)[k].status.Pending? then Ok(false) else if anchored then Ok(true) else Err(NotAnchored)
      ensures var begins := k in old(tasks) && old(tasks)[k].status.Pending?;
              && (begins ==>
                  && Index() == old(Index()).(tasks := old(tasks)[k := Begun(old(tasks)[k])])
                  && files == old(files)[KeyOf(old(tasks)[k]) := Begun(old(tasks)[k])])
              && (!begins ==> Index() == old(Index()) && files == old(files))
    {
      if k !in tasks {
        return Err(Disappeared);
      }
      var current := tasks[k];
      if !current.status.Pending? {
        return Ok(false);
      }
      current := current.(status := Running, attempts := current.attempts + 1);
      Write(current);
      tasks := tasks[k := current];
      if !anchored {
        return Err(NotAnchored);
      }
      r := Ok(true);
    }

    /** Record an attempt's outcome: on disk, then anchored, and only then in the index. `anchored` is what the
        anchor answers. Whatever fails, the worker has let go of the record. */
    method Finish(k: Key, outcome: Outcome, now: u64, anchored: bool) returns (r: Result<(), Error>)
      modifies this
      ensures k !in old(tasks) ==> r == Err(Disappeared) && Index() == old(Index()) && files == old(files)
      ensures k in old(tasks) && old(tasks)[k].status.Cancelled? ==>
                r == Ok(()) && Index() == old(Index()).(active := old(active) - {k}) && files == old(files)
      ensures k in old(tasks) && !old(tasks)[k].status.Cancelled? && outcome.Busy? ==>
                && r == Ok(()) && files == old(files)
                && Index() == old(Index()).(active := old(active) - {k}, due := old(due) + {Entry(SaturatingAdd(now, 100), k)})
      ensures k in old(tasks) && !old(tasks)[k].status.Cancelled? && !outcome.Busy? ==>
                var next := Outcomes(old(tasks)[k], outcome, now, hash);
                && r == (if next.Err? then Err(next.error) else if anchored then Ok(()) else Err(NotAnchored))
                && files == (if next.Ok? then old(files)[KeyOf(next.value) := next.value] else old(files))
                && Index() == (if r.Ok? then Stored(old(Index()), k, next.value) else old(Index()).(active := old(active) - {k}))
      ensures r.Ok? && !old(tasks)[k].status.Cancelled? && outcome.Success? && old(tasks)[k].intervalMs.Some? ==>
                var interval := old(tasks)[k].intervalMs.value;
                && tasks[k].status.Pending? && due == old(due) + {Entry(tasks[k].runAt, k)}
                && interval > 0 && RunsNext(tasks[k].runAt, now, interval, hash(KeyOf(old(tasks)[k])) % interval)
    {
      if k !in tasks {
        return Err(Disappeared);
      }
      var current := tasks[k];
      active := active - {k};
      if current.status.Cancelled? {
        return Ok(());
      }
      if outcome.Busy? {
        due := due + {Entry(SaturatingAdd(now, 100), k)};
        return Ok(());
      }
      var next := Outcomes(current, outcome, now, hash);
      if next.Err? {
        return Err(next.error);
      }
      Write(next.value);
      if !anchored {
        return Err(NotAnchored);
      }
      if next.value.status.Pending? {
        due := due + {Entry(next.value.runAt, k)};
      }
      tasks := tasks[k := next.value];
      r := Ok(());
      if outcome.Success? && current.intervalMs.Some? {
        SuccessRunsNext(current, outcome.bytes, now, hash);
      }
    }
  }

  lemma Larger<T>(found: set<T>, read: set<T>, k: T)
    requires read <= found && k in found && k !in read
    ensures |found| > |read|
  {
    assert |found - read| + |read| == |found| by {
      assert (found - read) + read == found;
    }
    assert k in found - read;
  }

  lemma Moved<T>(left: set<T>, done: set<T>, k: T)
    requires k in left && left !! done
    ensures left - {k} !! done + {k} && (left - {k}) + (done + {k}) == left + done
  {
  }

  lemma SumOfUpdates(a: map<Key, Task>, b: map<Key, Task>, k: Key, task: Task)
    ensures (a + b)[k := task] == a + b[k := task]
  {
  }

  lemma KeyOfValid(k: Key, task: Task)
    requires ValidRecord(k, task)
    ensures KeyOf(task) == k
  {
  }

  lemma ScannedNone(files: map<Key, Task>, now: u64, hash: Key -> nat)
    ensures Scanned(files, {}, now, hash) == Records(map[], {}, {}, None)
  {
  }

  lemma ScannedOneMore(files: map<Key, Task>, read: set<Key>, k: Key, now: u64, hash: Key -> nat)
    requires read <= files.Keys && k in files && k !in read && ValidRecord(k, files[k])
    ensures var a, b := Scanned(files, read, now, hash), Scanned(files, read + {k}, now, hash);
            var task := Recovered(files[k]);
            && b.tasks == a.tasks[k := task]
            && b.due == a.due + (if task.status.Pending? then {Entry(RecoveredDue(files[k], now, hash), k)} else {})
            && b.active == a.active && b.last == a.last
  {
  }
}
