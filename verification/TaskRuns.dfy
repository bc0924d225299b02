/** The task queue over whole runs: workers in flight, anchors, and crashes after which each tenant's
    records come back in any state they held at or after the tenant's last anchor. */
module TaskRuns {
  import opened Wrappers
  import opened Tasks
  import opened TaskIndex
  import opened Pools

  type RecordMap = map<Key, Task>

  type TaskPool = Pool<RecordMap>

  /** What a worker has done with the record it was handed. `mark` is the state its anchor covers. */
  datatype Stage = Handed | Anchoring(mark: nat) | Cleared | Executed

  datatype Worker = Worker(task: Task, stage: Stage)

  /** `owners` and `executions` record history: which record each generation was drawn for, and how
      often each occurrence has been run. */
  datatype System = System(
    queue: Option<Records>,
    workers: map<Key, Worker>,
    pools: map<Tenant, TaskPool>,
    clock: u64,
    owners: map<Generation, Key>,
    executions: map<RunId, nat>)

  datatype Setup = Setup(limits: Limits, hash: Key -> nat)

  datatype Action =
    | Enqueue(tenant: Tenant, id: string, payload: Payload, runAt: u64, interval: Option<u64>, generation: Generation)
    | Cancel(k: Key)
    | Forget(k: Key)
    | Hand(entry: Entry)
    | Begin(k: Key)
    | AnchorReturns(k: Key)
    | Execute(k: Key)
    | Finish(k: Key, outcome: Outcome, anchored: bool)
    | OtherAnchor(tenant: Tenant, upto: nat)
    | Tick(now: u64)
    | Crash
    | Reboot(revealed: map<Tenant, nat>, flagged: set<Tenant>)
    | CrashedReboot(revealed: map<Tenant, nat>, rewritten: set<Key>)

  function Init(): System {
    System(None, map[], map[], 0, map[], map[])
  }

  function Executions(s: System, run: RunId): nat {
    if run in s.executions then s.executions[run] else 0
  }

  function PoolOf(s: System, t: Tenant): TaskPool {
    if t in s.pools then s.pools[t] else Pool([map[]], 0)
  }

  function Live(p: TaskPool): RecordMap {
    if p.history == [] then map[] else Current(p)
  }

  function WithRecords(s: System, t: Tenant, records: RecordMap): System {
    s.(pools := s.pools[t := Changed(PoolOf(s, t), records)])
  }

  function Write(s: System, k: Key, task: Task): System {
    WithRecords(s, k.tenant, Live(PoolOf(s, k.tenant))[k := task])
  }

  function RaiseFloor(s: System, t: Tenant, floor: nat): System {
    s.(pools := s.pools[t := Anchored(PoolOf(s, t), floor)])
  }

  function Down(s: System): System {
    s.(queue := None, workers := map[])
  }

  /** The records a boot finds when each tenant's pool comes back in the revealed state. */
  function Files(s: System, revealed: map<Tenant, nat>): RecordMap {
    map t: Tenant, k: Key | t in s.pools && t in revealed && revealed[t] < |s.pools[t].history|
                            && k in s.pools[t].history[revealed[t]] && k.tenant == t
      :: k := s.pools[t].history[revealed[t]][k]
  }

  predicate CanReveal(s: System, revealed: map<Tenant, nat>) {
    revealed.Keys == s.pools.Keys
    && forall t :: t in s.pools ==> Revealable(s.pools[t], revealed[t])
  }

  /** The pools after a boot has rewritten the interrupted attempts among `keys`. */
  function Rebooted(s: System, revealed: map<Tenant, nat>, keys: set<Key>): map<Tenant, TaskPool>
    requires CanReveal(s, revealed)
  {
    map t | t in s.pools :: Changed(s.pools[t], Rewritten(s.pools[t].history[revealed[t]], keys))
  }

  function Rewritten(records: RecordMap, keys: set<Key>): RecordMap {
    map k | k in records :: if k in keys then Recovered(records[k]) else records[k]
  }

  /** A boot that found these records is up, with them in its index. */
  function RebootStep(c: Setup, s: System, revealed: map<Tenant, nat>, found: set<Key>): System
    requires CanReveal(s, revealed) && found <= Files(s, revealed).Keys
  {
    s.(queue := Some(Scanned(Files(s, revealed), found, s.clock, c.hash)), pools := Rebooted(s, revealed, found))
  }

  predicate OutcomeFits(stage: Stage, pending: bool, outcome: Outcome) {
    match outcome
    case Busy => stage.Handed?
    case Success(bytes) => stage.Executed? || (stage.Handed? && !pending && bytes == [])
    case Failure(_) => true
  }

  function Step(c: Setup, s: System, a: Action): Option<System> {
    match (a, s.queue)
    case (Tick(now), _) => if now < s.clock then None else Some(s.(clock := now))
    case (OtherAnchor(t, upto), Some(_)) =>
      if t !in s.pools || upto >= |s.pools[t].history| then None else Some(RaiseFloor(s, t, upto))
    case (Crash, Some(_)) => Some(Down(s))
    case (Reboot(revealed, flagged), None) =>
      if !CanReveal(s, revealed) then None
      else
        var files := Files(s, revealed);
        var found := set k | k in files && k.tenant in flagged;
        if |found| > c.limits.maxRecords || exists k :: k in found && !ValidRecord(k, files[k]) then None
        else Some(RebootStep(c, s, revealed, found))
    case (CrashedReboot(revealed, rewritten), None) =>
      if !CanReveal(s, revealed) then None else Some(s.(pools := Rebooted(s, revealed, rewritten)))
    case (_, Some(r)) => QueueStep(c, s, r, a)
    case _ => None
  }

  function QueueStep(c: Setup, s: System, r: Records, a: Action): Option<System> {
    match a
    case Enqueue(tenant, id, payload, runAt, interval, generation) =>
      var task := NewTask(tenant, id, payload, runAt, interval, generation);
      if generation in s.owners || EnqueueCheck(r, c.limits, task) != Ok(true) then None
      else Some(EnqueueStep(s, r, task))
    case Cancel(k) => if k !in r.tasks then None else Some(CancelStep(s, r, k))
    case Forget(k) => if !Forgettable(r, k) then None else Some(ForgetStep(s, r, k))
    case Hand(e) =>
      if e !in r.due || !Ready(r, s.clock, e) || (exists o :: o in r.due && Ready(r, s.clock, o) && !NoLater(r.last, e, o)) then None
      else Some(HandStep(s, r, e))
    case Begin(k) =>
      if k !in s.workers || !s.workers[k].stage.Handed? || k !in r.tasks || !r.tasks[k].status.Pending? then None
      else Some(BeginStep(s, r, k))
    case AnchorReturns(k) =>
      if k !in s.workers || !s.workers[k].stage.Anchoring? then None else Some(AnchorStep(s, k))
    case Execute(k) =>
      if k !in s.workers || !s.workers[k].stage.Cleared? then None else Some(ExecuteStep(s, k))
    case Finish(k, outcome, anchored) =>
      if k !in s.workers || k !in r.tasks || !OutcomeFits(s.workers[k].stage, r.tasks[k].status.Pending?, outcome) then None
      else Some(Finished(c, s, r, k, outcome, anchored))
    case _ => None
  }

  function EnqueueStep(s: System, r: Records, task: Task): System {
    Write(s, KeyOf(task), task).(queue := Some(Enqueued(r, task)), owners := s.owners[task.generation := KeyOf(task)])
  }

  function CancelStep(s: System, r: Records, k: Key): System
    requires k in r.tasks
  {
    Write(s, k, r.tasks[k].(status := Cancelled)).(queue := Some(CancelledTask(r, k)))
  }

  function ForgetStep(s: System, r: Records, k: Key): System {
    WithRecords(s, k.tenant, Live(PoolOf(s, k.tenant)) - {k}).(queue := Some(Forgotten(r, k)))
  }

  function HandStep(s: System, r: Records, e: Entry): System
    requires e.key in r.tasks
  {
    s.(queue := Some(Picked(r, e)), workers := s.workers[e.key := Worker(r.tasks[e.key], Handed)])
  }

  function SetStage(s: System, k: Key, stage: Stage): System
    requires k in s.workers
  {
    s.(workers := s.workers[k := s.workers[k].(stage := stage)])
  }

  /** The attempt is spent, and the anchor that must cover it has begun. */
  function BeginStep(s: System, r: Records, k: Key): System
    requires k in r.tasks && k in s.workers
  {
    var task := Begun(r.tasks[k]);
    SetStage(Write(s, k, task).(queue := Some(r.(tasks := r.tasks[k := task]))), k, Anchoring(|PoolOf(s, k.tenant).history|))
  }

  function AnchorStep(s: System, k: Key): System
    requires k in s.workers && s.workers[k].stage.Anchoring?
  {
    SetStage(RaiseFloor(s, k.tenant, s.workers[k].stage.mark), k, Cleared)
  }

  function ExecuteStep(s: System, k: Key): System
    requires k in s.workers
  {
    var run := RunIdOf(s.workers[k].task);
    SetStage(s, k, Executed).(executions := s.executions[run := Executions(s, run) + 1])
  }

  /** An outcome that cannot be stored or anchored stops the queue, and so the enclave. */
  function Finished(c: Setup, s: System, r: Records, k: Key, outcome: Outcome, anchored: bool): System
    requires k in s.workers && k in r.tasks
  {
    var task := r.tasks[k];
    var idle := s.(workers := s.workers - {k});
    if task.status.Cancelled? then idle.(queue := Some(r.(active := r.active - {k})))
    else if outcome.Busy? then
      idle.(queue := Some(r.(active := r.active - {k}, due := r.due + {Entry(SaturatingAdd(s.clock, 100), k)})))
    else
      var next := Outcomes(task, outcome, s.clock, c.hash);
      if next.Err? then Down(s)
      else
        var written := Write(idle, k, next.value);
        if !anchored then Down(written)
        else RaiseFloor(written, k.tenant, |PoolOf(written, k.tenant).history| - 1).(queue := Some(Stored(r, k, next.value)))
  }

  function Exec(c: Setup, s: System, actions: seq<Action>): Option<System> {
    if actions == [] then Some(s)
    else
      var before := Exec(c, s, actions[..|actions| - 1]);
      if before.None? then None else Step(c, before.value, actions[|actions| - 1])
  }

  /** A whole run, from an empty disk. */
  function Run(c: Setup, actions: seq<Action>): Option<System> {
    Exec(c, Init(), actions)
  }

  // ---- the invariant ------------------------------------------------------

  /** An attempt count bounds the executions of its occurrence, and no later occurrence has run. */
  predicate Counted(s: System, task: Task) {
    && Executions(s, RunIdOf(task)) <= task.attempts
    && forall run :: run in s.executions && run.id == task.id && run.generation == task.generation && run.occurrence > task.occurrence
         ==> s.executions[run] == 0
  }

  predicate RecordOk(s: System, k: Key, task: Task) {
    && KeyOf(task) == k
    && task.generation in s.owners && s.owners[task.generation] == k
    && task.attempts <= MAX_ATTEMPTS && (task.status.Pending? ==> task.attempts < MAX_ATTEMPTS)
    && Counted(s, task)
  }

  predicate RecordsOk(s: System, t: Tenant, records: RecordMap) {
    forall k :: k in records ==> k.tenant == t && RecordOk(s, k, records[k])
  }

  predicate PoolOk(s: System, t: Tenant, p: TaskPool) {
    p.floor < |p.history| && forall j :: p.floor <= j < |p.history| ==> RecordsOk(s, t, p.history[j])
  }

  predicate ExecutionsOk(s: System) {
    forall run :: run in s.executions ==>
      && s.executions[run] <= MAX_ATTEMPTS
      && run.generation in s.owners && s.owners[run.generation].id == run.id
  }

  /** From state `from` on, this record's generation is never seen with fewer attempts spent. */
  predicate SpentSince(p: TaskPool, from: nat, task: Task) {
    forall j :: from <= j < |p.history| && KeyOf(task) in p.history[j] ==>
      var old' := p.history[j][KeyOf(task)];
      old'.generation == task.generation ==>
        old'.occurrence > task.occurrence || (old'.occurrence == task.occurrence && old'.attempts >= task.attempts)
  }

  /** The worker's record is still the one it was handed, give or take its status and attempts. */
  predicate WorkerOk(s: System, r: Records, k: Key, w: Worker) {
    && k in r.active && k in r.tasks && KeyOf(w.task) == k
    && var task := r.tasks[k];
    && KeyOf(task) == k && task.generation == w.task.generation && task.occurrence == w.task.occurrence && task.payload == w.task.payload
    && match w.stage
       case Handed => task.status.Pending? || task.status.Cancelled?
       case Anchoring(mark) =>
         && (task.status.Running? || task.status.Cancelled?) && Executions(s, RunIdOf(task)) < task.attempts
         && mark < |PoolOf(s, k.tenant).history| && SpentSince(PoolOf(s, k.tenant), mark, task)
       case Cleared =>
         && (task.status.Running? || task.status.Cancelled?) && Executions(s, RunIdOf(task)) < task.attempts
         && SpentSince(PoolOf(s, k.tenant), PoolOf(s, k.tenant).floor, task)
       case Executed => task.status.Running? || task.status.Cancelled?
  }

  /** The index holds what is on the pools in use. */
  predicate Mirrors(s: System, tasks: RecordMap) {
    forall k :: k in tasks ==> k in Live(PoolOf(s, k.tenant)) && Live(PoolOf(s, k.tenant))[k] == tasks[k]
  }

  predicate WorkersOk(s: System, r: Records) {
    forall k :: k in s.workers ==> WorkerOk(s, r, k, s.workers[k])
  }

  predicate QueueOk(s: System, r: Records) {
    && IndexOk(r) && HandedOnTime(r, s.clock) && Mirrors(s, r.tasks)
    && s.workers.Keys == r.active
    && WorkersOk(s, r)
  }

  predicate PoolsOk(s: System) {
    forall t :: t in s.pools ==> PoolOk(s, t, s.pools[t])
  }

  predicate Inv(s: System) {
    && PoolsOk(s) && ExecutionsOk(s)
    && (s.queue.None? ==> s.workers == map[])
    && (s.queue.Some? ==> QueueOk(s, s.queue.value))
  }

  // ---- writing records ----------------------------------------------------

  predicate SameExecutions(s: System, s': System) {
    && s'.executions == s.executions
    && forall g :: g in s.owners ==> g in s'.owners && s'.owners[g] == s.owners[g]
  }

  lemma RecordsStillOk(s: System, s': System, t: Tenant, records: RecordMap)
    requires SameExecutions(s, s') && RecordsOk(s, t, records)
    ensures RecordsOk(s', t, records)
  {
  }

  lemma PoolOfOk(s: System, t: Tenant)
    requires PoolsOk(s)
    ensures PoolOk(s, t, PoolOf(s, t)) && RecordsOk(s, t, Live(PoolOf(s, t)))
  {
  }

  /** A tenant's records may move to any state that is itself in order. */
  lemma WithRecordsOk(s: System, t: Tenant, records: RecordMap)
    requires PoolsOk(s) && RecordsOk(s, t, records)
    ensures PoolsOk(WithRecords(s, t, records))
  {
  }

  lemma WriteOk(s: System, k: Key, task: Task)
    requires PoolsOk(s) && RecordOk(s, k, task)
    ensures PoolsOk(Write(s, k, task))
  {
    PoolOfOk(s, k.tenant);
    WithRecordsOk(s, k.tenant, Live(PoolOf(s, k.tenant))[k := task]);
  }

  lemma FloorOk(s: System, t: Tenant, floor: nat)
    requires PoolsOk(s) && floor < |PoolOf(s, t).history|
    ensures PoolsOk(RaiseFloor(s, t, floor))
  {
  }

  /** Owners may gain a generation and nothing else changes. */
  lemma OwnersOk(s: System, g: Generation, k: Key)
    requires PoolsOk(s) && ExecutionsOk(s) && g !in s.owners
    ensures var s' := s.(owners := s.owners[g := k]); PoolsOk(s') && ExecutionsOk(s')
  {
  }

  // ---- workers ------------------------------------------------------------

  /** Other records moving on leave a worker's record as spent as it was. */
  lemma WorkerSurvivesWrite(s: System, r: Records, k: Key, t: Tenant, records: RecordMap, r': Records)
    requires k in s.workers && WorkerOk(s, r, k, s.workers[k]) && (t in s.pools ==> PoolOk(s, t, s.pools[t]))
    requires k in r'.active && k in r'.tasks
    requires r'.tasks[k] == r.tasks[k] || r'.tasks[k] == r.tasks[k].(status := Cancelled)
    requires k.tenant == t && k in records ==> records[k] == r'.tasks[k]
    ensures WorkerOk(WithRecords(s, t, records), r', k, s.workers[k])
  {
  }

  lemma WorkersSurviveWrite(s: System, r: Records, t: Tenant, records: RecordMap, r': Records)
    requires WorkersOk(s, r) && PoolsOk(s) && s.workers.Keys <= r'.active && r'.active <= r'.tasks.Keys
    requires forall k :: k in s.workers ==> r'.tasks[k] == r.tasks[k] || r'.tasks[k] == r.tasks[k].(status := Cancelled)
    requires forall k :: k in s.workers && k.tenant == t && k in records ==> records[k] == r'.tasks[k]
    ensures WorkersOk(WithRecords(s, t, records), r')
  {
    forall k | k in s.workers ensures WorkerOk(WithRecords(s, t, records), r', k, s.workers[k]) {
      WorkerSurvivesWrite(s, r, k, t, records, r');
    }
  }

  lemma WorkersSurviveFloor(s: System, r: Records, t: Tenant, floor: nat)
    requires WorkersOk(s, r)
    ensures WorkersOk(RaiseFloor(s, t, floor), r)
  {
  }

  // ---- every step keeps the invariant -------------------------------------

  /** A system with its queue up, in order. */
  predicate Up(s: System, r: Records) {
    s.queue == Some(r) && PoolsOk(s) && ExecutionsOk(s) && QueueOk(s, r)
  }

  lemma MirrorsWrite(s: System, tasks: RecordMap, k: Key, task: Task)
    requires Mirrors(s, tasks)
    ensures Mirrors(Write(s, k, task), tasks[k := task])
  {
  }

  lemma MirrorsForget(s: System, tasks: RecordMap, k: Key)
    requires Mirrors(s, tasks)
    ensures Mirrors(WithRecords(s, k.tenant, Live(PoolOf(s, k.tenant)) - {k}), tasks - {k})
  {
  }

  lemma LiveRecordOk(s: System, r: Records, k: Key)
    requires PoolsOk(s) && Mirrors(s, r.tasks) && k in r.tasks
    ensures RecordOk(s, k, r.tasks[k])
  {
    PoolOfOk(s, k.tenant);
  }

  /** Workers read only the pools, the executions and their own entries. */
  lemma WorkersTransfer(b: System, s': System, r: Records)
    requires WorkersOk(b, r) && s'.pools == b.pools && s'.executions == b.executions && s'.workers == b.workers
    ensures WorkersOk(s', r)
  {
  }

  lemma PoolsTransfer(a: System, s': System)
    requires PoolsOk(a) && ExecutionsOk(a) && s'.pools == a.pools && s'.owners == a.owners && s'.executions == a.executions
    ensures PoolsOk(s') && ExecutionsOk(s')
  {
  }

  /** What the workers of a write need of the records before and after. */
  lemma WorkersWrite(s: System, r: Records, k: Key, task: Task, r': Records)
    requires WorkersOk(s, r) && PoolsOk(s) && Mirrors(s, r.tasks) && s.workers.Keys <= r'.active <= r'.tasks.Keys
    requires r'.tasks == r.tasks[k := task]
    requires k in s.workers ==> k in r.tasks && task == r.tasks[k].(status := Cancelled)
    ensures WorkersOk(Write(s, k, task), r')
  {
    var records := Live(PoolOf(s, k.tenant))[k := task];
    forall o | o in s.workers
      ensures r'.tasks[o] == r.tasks[o] || r'.tasks[o] == r.tasks[o].(status := Cancelled)
      ensures o.tenant == k.tenant && o in records ==> records[o] == r'.tasks[o]
    {
      assert WorkerOk(s, r, o, s.workers[o]);
    }
    WorkersSurviveWrite(s, r, k.tenant, records, r');
  }

  /** A record under a generation never drawn before has never run. */
  lemma NewRecordOk(s: System, task: Task)
    requires ExecutionsOk(s) && task.generation !in s.owners && task.attempts == 0
    ensures RecordOk(s.(owners := s.owners[task.generation := KeyOf(task)]), KeyOf(task), task)
  {
  }

  lemma UpParts(s: System, r: Records)
    requires Up(s, r)
    ensures PoolsOk(s) && ExecutionsOk(s) && IndexOk(r) && HandedOnTime(r, s.clock) && Mirrors(s, r.tasks) && WorkersOk(s, r)
    ensures s.queue == Some(r) && s.workers.Keys == r.active && r.active <= r.tasks.Keys
    ensures forall k :: k in r.tasks ==> KeyOf(r.tasks[k]) == k
  {
  }

  lemma EnqueueKeeps(s: System, r: Records, limits: Limits, task: Task)
    requires Up(s, r) && task.generation !in s.owners && EnqueueCheck(r, limits, task) == Ok(true)
    requires task.status.Pending? && task.attempts == 0
    ensures Up(EnqueueStep(s, r, task), Enqueued(r, task))
  {
    hide PoolsOk, ExecutionsOk, IndexOk, HandedOnTime, Mirrors, WorkersOk, RecordOk;
    var k := KeyOf(task);
    var s', r' := EnqueueStep(s, r, task), Enqueued(r, task);
    UpParts(s, r);
    EnqueuedOk(r, limits, task);
    NewRecordOk(s, task);
    var owned := s.(owners := s.owners[task.generation := k]);
    OwnersOk(s, task.generation, k);
    WriteOk(owned, k, task);
    PoolsTransfer(Write(owned, k, task), s');
    WorkersWrite(s, r, k, task, r');
    WorkersTransfer(Write(s, k, task), s', r');
    MirrorsWrite(s, r.tasks, k, task);
    MirrorsTransfer(Write(s, k, task), s', r'.tasks);
  }

  lemma MirrorsTransfer(a: System, s': System, tasks: RecordMap)
    requires Mirrors(a, tasks) && s'.pools == a.pools
    ensures Mirrors(s', tasks)
  {
  }

  lemma CancelKeeps(s: System, r: Records, k: Key)
    requires Up(s, r) && k in r.tasks
    ensures Up(CancelStep(s, r, k), CancelledTask(r, k))
  {
    hide PoolsOk, ExecutionsOk, IndexOk, HandedOnTime, Mirrors, WorkersOk;
    var s', r' := CancelStep(s, r, k), CancelledTask(r, k);
    var task := r'.tasks[k];
    UpParts(s, r);
    CancelledOk(r, k);
    LiveRecordOk(s, r, k);
    WriteOk(s, k, task);
    PoolsTransfer(Write(s, k, task), s');
    WorkersWrite(s, r, k, task, r');
    WorkersTransfer(Write(s, k, task), s', r');
    MirrorsWrite(s, r.tasks, k, task);
    MirrorsTransfer(Write(s, k, task), s', r'.tasks);
  }

  lemma ForgetKeeps(s: System, r: Records, k: Key)
    requires Up(s, r) && Forgettable(r, k)
    ensures Up(ForgetStep(s, r, k), Forgotten(r, k))
  {
    hide PoolsOk, ExecutionsOk, IndexOk, HandedOnTime, Mirrors, WorkersOk;
    var s', r' := ForgetStep(s, r, k), Forgotten(r, k);
    var records := Live(PoolOf(s, k.tenant)) - {k};
    UpParts(s, r);
    ForgottenOk(r, k);
    ForgetWorkers(s, r, k);
    PoolOfOk(s, k.tenant);
    WithRecordsOk(s, k.tenant, records);
    PoolsTransfer(WithRecords(s, k.tenant, records), s');
    WorkersTransfer(WithRecords(s, k.tenant, records), s', r');
    MirrorsForget(s, r.tasks, k);
    MirrorsTransfer(WithRecords(s, k.tenant, records), s', r'.tasks);
  }

  lemma ForgetWorkers(s: System, r: Records, k: Key)
    requires WorkersOk(s, r) && PoolsOk(s) && Mirrors(s, r.tasks) && s.workers.Keys == r.active <= r.tasks.Keys && Forgettable(r, k)
    ensures WorkersOk(WithRecords(s, k.tenant, Live(PoolOf(s, k.tenant)) - {k}), Forgotten(r, k))
  {
    WorkersSurviveWrite(s, r, k.tenant, Live(PoolOf(s, k.tenant)) - {k}, Forgotten(r, k));
  }

  lemma HandKeeps(s: System, r: Records, e: Entry)
    requires Up(s, r) && Ready(r, s.clock, e)
    ensures Up(HandStep(s, r, e), Picked(r, e))
  {
    hide PoolsOk, ExecutionsOk, IndexOk, HandedOnTime, Mirrors, WorkerOk;
    var s', r' := HandStep(s, r, e), Picked(r, e);
    UpParts(s, r);
    PickedOk(r, s.clock, e);
    PoolsTransfer(s, s');
    MirrorsTransfer(s, s', r'.tasks);
    HandedWorkerOk(s', r', e.key);
    forall k | k in s'.workers && k != e.key ensures WorkerOk(s', r', k, s'.workers[k]) {
      WorkerKeepsIndex(s, r, k, s.workers[k], s', r');
    }
  }

  lemma HandedWorkerOk(s: System, r: Records, k: Key)
    requires k in r.active && k in r.tasks && KeyOf(r.tasks[k]) == k && r.tasks[k].status.Pending?
    ensures WorkerOk(s, r, k, Worker(r.tasks[k], Handed))
  {
  }

  lemma WorkerKeepsIndex(s: System, r: Records, k: Key, w: Worker, s': System, r': Records)
    requires WorkerOk(s, r, k, w) && s'.pools == s.pools && s'.executions == s.executions
    requires r'.tasks == r.tasks && k in r'.active
    ensures WorkerOk(s', r', k, w)
  {
  }

  /** The worker that begins: its attempt is spent in every state from its own write on. */
  lemma BeginWorker(s: System, r: Records, k: Key)
    requires PoolsOk(s) && Mirrors(s, r.tasks) && k in s.workers && WorkerOk(s, r, k, s.workers[k])
    requires s.workers[k].stage.Handed? && r.tasks[k].status.Pending? && k in r.active && RecordOk(s, k, r.tasks[k])
    ensures var s' := BeginStep(s, r, k); WorkerOk(s', s'.queue.value, k, s'.workers[k])
  {
    PoolOfOk(s, k.tenant);
    assert RunIdOf(Begun(r.tasks[k])) == RunIdOf(r.tasks[k]);
  }

  lemma BegunRecordOk(s: System, k: Key, task: Task)
    requires RecordOk(s, k, task) && task.status.Pending?
    ensures RecordOk(s, k, Begun(task))
  {
    assert RunIdOf(Begun(task)) == RunIdOf(task);
  }

  lemma BeginKeeps(s: System, r: Records, k: Key)
    requires Up(s, r) && k in s.workers && s.workers[k].stage.Handed? && k in r.tasks && r.tasks[k].status.Pending?
    ensures Up(BeginStep(s, r, k), r.(tasks := r.tasks[k := Begun(r.tasks[k])]))
  {
    hide PoolsOk, ExecutionsOk, IndexOk, HandedOnTime, Mirrors, WorkerOk, RecordOk;
    var task := Begun(r.tasks[k]);
    var s', r' := BeginStep(s, r, k), r.(tasks := r.tasks[k := task]);
    UpParts(s, r);
    BegunOk(r, k);
    LiveRecordOk(s, r, k);
    BegunRecordOk(s, k, r.tasks[k]);
    WriteOk(s, k, task);
    PoolsTransfer(Write(s, k, task), s');
    MirrorsWrite(s, r.tasks, k, task);
    MirrorsTransfer(Write(s, k, task), s', r'.tasks);
    BeginWorker(s, r, k);
    OthersWrite(s, r, k, task, s', r');
  }

  /** The other workers' entries survive a write to one record. */
  lemma OthersWrite(s: System, r: Records, k: Key, task: Task, s': System, r': Records)
    requires PoolsOk(s) && WorkersOk(s, r) && Mirrors(s, r.tasks) && s.workers.Keys <= r.active <= r.tasks.Keys
    requires r'.tasks == r.tasks[k := task] && r.active - {k} <= r'.active <= r'.tasks.Keys
    requires s'.pools == Write(s, k, task).pools && s'.executions == s.executions
    requires s'.workers.Keys <= s.workers.Keys && forall o :: o in s'.workers && o != k ==> s'.workers[o] == s.workers[o]
    requires k in s'.workers ==> WorkerOk(s', r', k, s'.workers[k])
    ensures WorkersOk(s', r')
  {
    hide WorkerOk, PoolOk, Live;
    forall o | o in s'.workers && o != k ensures WorkerOk(s', r', o, s'.workers[o]) {
      OtherWorkerWrite(s, r, k, task, r', o);
      WorkerTransfer(Write(s, k, task), s', r', o, s.workers[o]);
    }
  }

  lemma OtherWorkerWrite(s: System, r: Records, k: Key, task: Task, r': Records, o: Key)
    requires PoolsOk(s) && Mirrors(s, r.tasks) && o in s.workers && o != k && WorkerOk(s, r, o, s.workers[o])
    requires r'.tasks == r.tasks[k := task] && o in r'.active
    ensures WorkerOk(Write(s, k, task), r', o, s.workers[o])
  {
    assert o in r.tasks;
    WorkerSurvivesWrite(s, r, o, k.tenant, Live(PoolOf(s, k.tenant))[k := task], r');
  }

  lemma WorkerTransfer(a: System, s': System, r: Records, k: Key, w: Worker)
    requires WorkerOk(a, r, k, w) && s'.pools == a.pools && s'.executions == a.executions
    ensures WorkerOk(s', r, k, w)
  {
  }

  lemma AnchorKeeps(s: System, r: Records, k: Key)
    requires Up(s, r) && k in s.workers && s.workers[k].stage.Anchoring?
    ensures Up(AnchorStep(s, k), r)
  {
    hide PoolsOk, ExecutionsOk, IndexOk, HandedOnTime, Mirrors, WorkerOk;
    var s' := AnchorStep(s, k);
    var mark := s.workers[k].stage.mark;
    var raised := RaiseFloor(s, k.tenant, mark);
    UpParts(s, r);
    AnchoredWorker(s, r, k);
    FloorOk(s, k.tenant, mark);
    PoolsTransfer(raised, s');
    MirrorsFloor(s, r.tasks, k.tenant, mark);
    MirrorsTransfer(raised, s', r.tasks);
    WorkersSurviveFloor(s, r, k.tenant, mark);
    forall o | o in s'.workers && o != k ensures WorkerOk(s', r, o, s'.workers[o]) {
      WorkerTransfer(raised, s', r, o, s.workers[o]);
    }
  }

  /** Once its anchor has returned, no state a crash can reveal shows the attempt unspent. */
  lemma AnchoredWorker(s: System, r: Records, k: Key)
    requires k in s.workers && WorkersOk(s, r) && s.workers[k].stage.Anchoring?
    ensures s.workers[k].stage.mark < |PoolOf(s, k.tenant).history|
    ensures WorkerOk(AnchorStep(s, k), r, k, AnchorStep(s, k).workers[k])
  {
    assert WorkerOk(s, r, k, s.workers[k]);
  }

  lemma MirrorsFloor(s: System, tasks: RecordMap, t: Tenant, floor: nat)
    requires Mirrors(s, tasks)
    ensures Mirrors(RaiseFloor(s, t, floor), tasks)
  {
  }

  // ---- running an attempt -------------------------------------------------

  lemma ExecutedRecords(s: System, k: Key, task: Task, t: Tenant, records: RecordMap)
    requires k in s.workers && KeyOf(task) == k && RunIdOf(s.workers[k].task) == RunIdOf(task)
    requires task.generation in s.owners && s.owners[task.generation] == k
    requires Executions(s, RunIdOf(task)) < task.attempts && RecordsOk(s, t, records)
    requires k.tenant == t && k in records && records[k].generation == task.generation ==>
               records[k].occurrence > task.occurrence || (records[k].occurrence == task.occurrence && records[k].attempts >= task.attempts)
    ensures RecordsOk(ExecuteStep(s, k), t, records)
  {
  }

  /** An execution fits under the attempt count in every state a crash can reveal. */
  lemma ExecutedPools(s: System, k: Key, task: Task)
    requires PoolsOk(s) && k in s.workers && KeyOf(task) == k && RunIdOf(s.workers[k].task) == RunIdOf(task)
    requires task.generation in s.owners && s.owners[task.generation] == k
    requires Executions(s, RunIdOf(task)) < task.attempts
    requires SpentSince(PoolOf(s, k.tenant), PoolOf(s, k.tenant).floor, task)
    ensures PoolsOk(ExecuteStep(s, k))
  {
    var s' := ExecuteStep(s, k);
    forall t | t in s'.pools ensures PoolOk(s', t, s'.pools[t]) {
      var p := s.pools[t];
      assert PoolOk(s, t, p);
      forall j | p.floor <= j < |p.history| ensures RecordsOk(s', t, p.history[j]) {
        ExecutedRecords(s, k, task, t, p.history[j]);
      }
    }
  }

  lemma ExecutedWorkers(s: System, r: Records, k: Key)
    requires WorkersOk(s, r) && PoolsOk(s) && Mirrors(s, r.tasks) && k in s.workers && s.workers[k].stage.Cleared?
    ensures WorkersOk(ExecuteStep(s, k), r)
  {
    hide PoolsOk, Mirrors, SpentSince;
    var s' := ExecuteStep(s, k);
    assert WorkerOk(s, r, k, s.workers[k]);
    forall o | o in s'.workers && o != k ensures WorkerOk(s', r, o, s'.workers[o]) {
      assert WorkerOk(s, r, o, s.workers[o]);
      DifferentRuns(s, r, o, k);
    }
  }

  /** Two records' runs have different names: their generations were drawn apart. */
  lemma DifferentRuns(s: System, r: Records, o: Key, k: Key)
    requires PoolsOk(s) && Mirrors(s, r.tasks) && o in r.tasks && k in r.tasks && o != k
    ensures r.tasks[o].generation != r.tasks[k].generation
  {
    LiveRecordOk(s, r, o);
    LiveRecordOk(s, r, k);
  }

  lemma ExecutedCounts(s: System, k: Key, task: Task)
    requires ExecutionsOk(s) && k in s.workers && RunIdOf(s.workers[k].task) == RunIdOf(task)
    requires task.generation in s.owners && s.owners[task.generation].id == task.id
    requires Executions(s, RunIdOf(task)) < task.attempts <= MAX_ATTEMPTS
    ensures ExecutionsOk(ExecuteStep(s, k))
  {
  }

  lemma ClearedWorker(s: System, r: Records, k: Key)
    requires WorkersOk(s, r) && k in s.workers && s.workers[k].stage.Cleared?
    ensures k in r.tasks && KeyOf(r.tasks[k]) == k && RunIdOf(s.workers[k].task) == RunIdOf(r.tasks[k])
    ensures Executions(s, RunIdOf(r.tasks[k])) < r.tasks[k].attempts
    ensures SpentSince(PoolOf(s, k.tenant), PoolOf(s, k.tenant).floor, r.tasks[k])
  {
    assert WorkerOk(s, r, k, s.workers[k]);
  }

  lemma ExecuteKeeps(s: System, r: Records, k: Key)
    requires Up(s, r) && k in s.workers && s.workers[k].stage.Cleared?
    ensures Up(ExecuteStep(s, k), r)
  {
    hide PoolsOk, ExecutionsOk, IndexOk, HandedOnTime, Mirrors, WorkersOk, SpentSince;
    UpParts(s, r);
    ClearedWorker(s, r, k);
    LiveRecordOk(s, r, k);
    ExecutedPools(s, k, r.tasks[k]);
    ExecutedCounts(s, k, r.tasks[k]);
    ExecutedWorkers(s, r, k);
    MirrorsTransfer(s, ExecuteStep(s, k), r.tasks);
  }

  // ---- the end of an attempt ----------------------------------------------

  /** A worker done with its record leaves the others where they were. */
  lemma WorkersDrop(s: System, r: Records, k: Key, r': Records)
    requires WorkersOk(s, r) && r'.tasks == r.tasks && r'.active == r.active - {k}
    ensures WorkersOk(s.(workers := s.workers - {k}), r')
  {
  }

  lemma HandedWorker(s: System, r: Records, k: Key, outcome: Outcome)
    requires WorkersOk(s, r) && k in s.workers && OutcomeFits(s.workers[k].stage, k in r.tasks && r.tasks[k].status.Pending?, outcome)
    ensures k in r.tasks && KeyOf(r.tasks[k]) == k && k in r.active
    ensures outcome.Busy? ==> r.tasks[k].status.Pending? || r.tasks[k].status.Cancelled?
  {
    assert WorkerOk(s, r, k, s.workers[k]);
  }

  /** What an outcome leaves on record: the same attempts spent, or none of the next occurrence. */
  lemma OutcomeRecordOk(s: System, k: Key, task: Task, outcome: Outcome, now: u64, hash: Key -> nat)
    requires RecordOk(s, k, task) && !outcome.Busy? && Outcomes(task, outcome, now, hash).Ok?
    ensures RecordOk(s, k, Outcomes(task, outcome, now, hash).value)
  {
  }

  lemma RequeueKeeps(s: System, r: Records, k: Key)
    requires Up(s, r) && k in s.workers && k in r.tasks && r.tasks[k].status.Pending?
    ensures var r' := r.(active := r.active - {k}, due := r.due + {Entry(SaturatingAdd(s.clock, 100), k)});
            Up(s.(workers := s.workers - {k}, queue := Some(r')), r')
  {
    hide PoolsOk, ExecutionsOk, IndexOk, Mirrors, WorkersOk;
    var r' := r.(active := r.active - {k}, due := r.due + {Entry(SaturatingAdd(s.clock, 100), k)});
    var idle := s.(workers := s.workers - {k});
    UpParts(s, r);
    RequeuedOk(r, k, s.clock);
    WorkersDrop(s, r, k, r');
    WorkersTransfer(idle, idle.(queue := Some(r')), r');
    PoolsTransfer(s, idle.(queue := Some(r')));
    MirrorsTransfer(s, idle.(queue := Some(r')), r'.tasks);
  }

  lemma ReleaseKeeps(s: System, r: Records, k: Key)
    requires Up(s, r) && k in s.workers && k in r.tasks && r.tasks[k].status.Cancelled?
    ensures var r' := r.(active := r.active - {k}); Up(s.(workers := s.workers - {k}, queue := Some(r')), r')
  {
    hide PoolsOk, ExecutionsOk, IndexOk, HandedOnTime, Mirrors, WorkersOk;
    var r' := r.(active := r.active - {k});
    var idle := s.(workers := s.workers - {k});
    UpParts(s, r);
    ReleasedOk(r, k);
    WorkersDrop(s, r, k, r');
    WorkersTransfer(idle, idle.(queue := Some(r')), r');
    PoolsTransfer(s, idle.(queue := Some(r')));
    MirrorsTransfer(s, idle.(queue := Some(r')), r'.tasks);
  }

  /** The system after a finished attempt has been stored, before the anchor that covers it returns. */
  function WrittenBack(s: System, k: Key, task: Task): System {
    Write(s.(workers := s.workers - {k}), k, task)
  }

  lemma StoreKeeps(s: System, r: Records, k: Key, task: Task)
    requires Up(s, r) && k in s.workers && RecordOk(s, k, task) && !task.status.Running?
    ensures PoolsOk(WrittenBack(s, k, task)) && ExecutionsOk(WrittenBack(s, k, task))
    ensures var s' := WrittenBack(s, k, task).(queue := Some(Stored(r, k, task))); Up(s', Stored(r, k, task))
  {
    hide PoolsOk, ExecutionsOk, IndexOk, HandedOnTime, Mirrors, WorkersOk;
    var r' := Stored(r, k, task);
    var written := WrittenBack(s, k, task);
    var s' := written.(queue := Some(r'));
    UpParts(s, r);
    StoredOk(r, k, task);
    WriteOk(s, k, task);
    PoolsTransfer(Write(s, k, task), written);
    PoolsTransfer(written, s');
    MirrorsWrite(s, r.tasks, k, task);
    MirrorsTransfer(Write(s, k, task), s', r'.tasks);
    OthersWrite(s, r, k, task, s', r');
  }

  lemma FloorKeeps(s: System, r: Records, t: Tenant, floor: nat)
    requires Up(s, r) && floor < |PoolOf(s, t).history|
    ensures Up(RaiseFloor(s, t, floor), r)
  {
    hide PoolsOk, ExecutionsOk, IndexOk, HandedOnTime, Mirrors, WorkersOk;
    UpParts(s, r);
    FloorOk(s, t, floor);
    MirrorsFloor(s, r.tasks, t, floor);
    WorkersSurviveFloor(s, r, t, floor);
    ExecutionsTransfer(s, RaiseFloor(s, t, floor));
  }

  lemma ExecutionsTransfer(a: System, s': System)
    requires ExecutionsOk(a) && s'.executions == a.executions && s'.owners == a.owners
    ensures ExecutionsOk(s')
  {
  }

  lemma FinishKeeps(c: Setup, s: System, r: Records, k: Key, outcome: Outcome, anchored: bool)
    requires Up(s, r) && k in s.workers && k in r.tasks
    requires OutcomeFits(s.workers[k].stage, r.tasks[k].status.Pending?, outcome)
    ensures Inv(Finished(c, s, r, k, outcome, anchored))
  {
    hide PoolsOk, ExecutionsOk, IndexOk, HandedOnTime, Mirrors, WorkersOk, Outcomes, RecordOk, Write, RaiseFloor;
    UpParts(s, r);
    HandedWorker(s, r, k, outcome);
    var task := r.tasks[k];
    if task.status.Cancelled? {
      ReleaseKeeps(s, r, k);
    } else if outcome.Busy? {
      RequeueKeeps(s, r, k);
    } else {
      var next := Outcomes(task, outcome, s.clock, c.hash);
      if next.Err? {
        PoolsTransfer(s, Down(s));
      } else {
        LiveRecordOk(s, r, k);
        OutcomeRecordOk(s, k, task, outcome, s.clock, c.hash);
        OutcomeShape(task, outcome, s.clock, c.hash);
        StoreKeeps(s, r, k, next.value);
        var written := WrittenBack(s, k, next.value);
        PoolsTransfer(written, Down(written));
        NonEmptyHistory(written, k, next.value, s);
        FloorKeeps(written.(queue := Some(Stored(r, k, next.value))), Stored(r, k, next.value), k.tenant, |PoolOf(written, k.tenant).history| - 1);
        FloorOfQueue(written, Stored(r, k, next.value), k.tenant, |PoolOf(written, k.tenant).history| - 1);
      }
    }
  }

  lemma NonEmptyHistory(written: System, k: Key, task: Task, s: System)
    requires written == WrittenBack(s, k, task)
    ensures |PoolOf(written, k.tenant).history| > 0
  {
  }

  lemma FloorOfQueue(s: System, r: Records, t: Tenant, floor: nat)
    ensures RaiseFloor(s, t, floor).(queue := Some(r)) == RaiseFloor(s.(queue := Some(r)), t, floor)
  {
  }

  // ---- crashes and restarts -----------------------------------------------

  lemma RewrittenOk(s: System, t: Tenant, records: RecordMap, keys: set<Key>)
    requires RecordsOk(s, t, records)
    ensures RecordsOk(s, t, Rewritten(records, keys))
  {
  }

  lemma RebootedPools(s: System, s': System, revealed: map<Tenant, nat>, keys: set<Key>)
    requires PoolsOk(s) && CanReveal(s, revealed) && s'.pools == Rebooted(s, revealed, keys)
    requires s'.owners == s.owners && s'.executions == s.executions
    ensures PoolsOk(s')
  {
    forall t | t in s'.pools ensures PoolOk(s', t, s'.pools[t]) {
      var p, p' := s.pools[t], s'.pools[t];
      assert PoolOk(s, t, p);
      RewrittenOk(s, t, p.history[revealed[t]], keys);
      forall j | p'.floor <= j < |p'.history| ensures RecordsOk(s', t, p'.history[j]) {
        RecordsStillOk(s, s', t, if j < |p.history| then p.history[j] else Rewritten(p.history[revealed[t]], keys));
      }
    }
  }

  lemma RebootMirrors(s: System, s': System, revealed: map<Tenant, nat>, found: set<Key>, now: u64, hash: Key -> nat)
    requires CanReveal(s, revealed) && s'.pools == Rebooted(s, revealed, found) && found <= Files(s, revealed).Keys
    ensures Mirrors(s', Scanned(Files(s, revealed), found, now, hash).tasks)
  {
    var files := Files(s, revealed);
    hide Scanned;
    ScannedTasks(files, found, now, hash);
    forall k | k in found
      ensures k in Live(PoolOf(s', k.tenant)) && Live(PoolOf(s', k.tenant))[k] == Recovered(files[k])
    {
      hide Recovered;
      assert k.tenant in s.pools;
    }
  }

  lemma ScannedTasks(files: RecordMap, found: set<Key>, now: u64, hash: Key -> nat)
    requires found <= files.Keys
    ensures forall k :: k in found ==> Scanned(files, found, now, hash).tasks[k] == Recovered(files[k])
  {
  }

  lemma RebootKeeps(c: Setup, s: System, revealed: map<Tenant, nat>, found: set<Key>)
    requires Inv(s) && s.queue.None? && CanReveal(s, revealed) && found <= Files(s, revealed).Keys
    requires forall k :: k in found ==> ValidRecord(k, Files(s, revealed)[k])
    ensures Inv(RebootStep(c, s, revealed, found))
  {
    hide PoolsOk, ExecutionsOk, IndexOk, Mirrors, ValidRecord, Files, Rebooted, CanReveal;
    var s' := RebootStep(c, s, revealed, found);
    RebootedPools(s, s', revealed, found);
    RebootMirrors(s, s', revealed, found, s.clock, c.hash);
    ScannedOk(Files(s, revealed), found, s.clock, c.hash);
    ExecutionsTransfer(s, s');
  }

  lemma CrashedRebootKeeps(c: Setup, s: System, revealed: map<Tenant, nat>, rewritten: set<Key>)
    requires Inv(s) && s.queue.None? && Step(c, s, CrashedReboot(revealed, rewritten)).Some?
    ensures Inv(Step(c, s, CrashedReboot(revealed, rewritten)).value)
  {
    RebootedPools(s, Step(c, s, CrashedReboot(revealed, rewritten)).value, revealed, rewritten);
  }

  lemma TickKeeps(s: System, now: u64)
    requires Inv(s) && s.clock <= now
    ensures Inv(s.(clock := now))
  {
    var s' := s.(clock := now);
    PoolsTransfer(s, s');
    if s.queue.Some? {
      WorkersTransfer(s, s', s.queue.value);
      MirrorsTransfer(s, s', s.queue.value.tasks);
    }
  }

  lemma CrashKeeps(s: System)
    requires Inv(s)
    ensures Inv(Down(s))
  {
    PoolsTransfer(s, Down(s));
  }

  // ---- whole runs ---------------------------------------------------------

  lemma QueueStepKeeps(c: Setup, s: System, r: Records, a: Action)
    requires Up(s, r) && QueueStep(c, s, r, a).Some?
    ensures Inv(QueueStep(c, s, r, a).value)
  {
    hide Up, Inv, EnqueueStep, CancelStep, ForgetStep, HandStep, BeginStep, AnchorStep, ExecuteStep, Finished;
    match a
    case Enqueue(tenant, id, payload, runAt, interval, generation) =>
      var task := NewTask(tenant, id, payload, runAt, interval, generation);
      EnqueueKeeps(s, r, c.limits, task);
      UpInv(EnqueueStep(s, r, task), Enqueued(r, task));
    case Cancel(k) => CancelKeeps(s, r, k); UpInv(CancelStep(s, r, k), CancelledTask(r, k));
    case Forget(k) => ForgetKeeps(s, r, k); UpInv(ForgetStep(s, r, k), Forgotten(r, k));
    case Hand(e) => HandKeeps(s, r, e); UpInv(HandStep(s, r, e), Picked(r, e));
    case Begin(k) => BeginKeeps(s, r, k); UpInv(BeginStep(s, r, k), r.(tasks := r.tasks[k := Begun(r.tasks[k])]));
    case AnchorReturns(k) => AnchorKeeps(s, r, k); UpInv(AnchorStep(s, k), r);
    case Execute(k) => ExecuteKeeps(s, r, k); UpInv(ExecuteStep(s, k), r);
    case Finish(k, outcome, anchored) => FinishKeeps(c, s, r, k, outcome, anchored);
    case _ =>
  }

  lemma UpInv(s: System, r: Records)
    requires Up(s, r)
    ensures Inv(s)
  {
  }

  lemma StepKeeps(c: Setup, s: System, a: Action)
    requires Inv(s) && Step(c, s, a).Some?
    ensures Inv(Step(c, s, a).value)
  {
    hide PoolsOk, ExecutionsOk, QueueOk, QueueStep, ValidRecord, Files, CanReveal, RebootStep;
    match (a, s.queue)
    case (Tick(now), _) => TickKeeps(s, now);
    case (OtherAnchor(t, upto), Some(r)) => FloorKeeps(s, r, t, upto); UpInv(RaiseFloor(s, t, upto), r);
    case (Crash, Some(_)) => CrashKeeps(s);
    case (Reboot(revealed, flagged), None) => RebootKeeps(c, s, revealed, set k | k in Files(s, revealed) && k.tenant in flagged);
    case (CrashedReboot(revealed, rewritten), None) => CrashedRebootKeeps(c, s, revealed, rewritten);
    case (_, Some(r)) => QueueStepKeeps(c, s, r, a);
    case _ =>
  }

  lemma {:induction false} RunKeeps(c: Setup, actions: seq<Action>)
    requires Run(c, actions).Some?
    ensures Inv(Run(c, actions).value)
  {
    if actions != [] {
      var before := actions[..|actions| - 1];
      RunKeeps(c, before);
      StepKeeps(c, Run(c, before).value, actions[|actions| - 1]);
    }
  }

  /** However often the enclave is killed and whatever record states its restarts are shown, no
      occurrence of a task is ever run more than five times. */
  lemma AttemptsBounded(c: Setup, actions: seq<Action>, run: RunId)
    requires Run(c, actions).Some?
    ensures Executions(Run(c, actions).value, run) <= MAX_ATTEMPTS
  {
    RunKeeps(c, actions);
  }

  predicate SameRun(r: Records, k: Key, w: Worker) {
    k in r.tasks && r.tasks[k].generation == w.task.generation && r.tasks[k].occurrence == w.task.occurrence
  }

  /** At every moment the queue is up its index is exact, what it holds is what is on the pools in use,
      and each worker's record is still the occurrence it was handed. */
  lemma IndexAlwaysExact(c: Setup, actions: seq<Action>)
    requires Run(c, actions).Some? && Run(c, actions).value.queue.Some?
    ensures var s := Run(c, actions).value;
            var r := s.queue.value;
            && IndexOk(r) && Mirrors(s, r.tasks) && s.workers.Keys == r.active
            && forall k :: k in s.workers ==> SameRun(r, k, s.workers[k])
  {
    RunKeeps(c, actions);
    var s := Run(c, actions).value;
    forall k | k in s.workers ensures SameRun(s.queue.value, k, s.workers[k]) {
      assert WorkerOk(s, s.queue.value, k, s.workers[k]);
    }
  }

  /** No record is handed out before its time, recovery and busy tenants included. */
  lemma HandedOnlyWhenDue(c: Setup, actions: seq<Action>, e: Entry)
    requires Run(c, actions).Some? && Step(c, Run(c, actions).value, Hand(e)).Some?
    ensures var s := Run(c, actions).value;
            s.queue.Some? && e.key in s.queue.value.tasks && s.queue.value.tasks[e.key].runAt <= s.clock
  {
    RunKeeps(c, actions);
  }

  /** Until it is forgotten, a record that has ended stays ended; only a cancellation changes how. */
  lemma EndedStaysEnded(c: Setup, s: System, a: Action, k: Key)
    requires Inv(s) && Step(c, s, a).Some? && s.queue.Some? && Step(c, s, a).value.queue.Some?
    requires k in s.queue.value.tasks && Terminal(s.queue.value.tasks[k].status)
    ensures var tasks := Step(c, s, a).value.queue.value.tasks;
            || (k !in tasks && a == Forget(k))
            || (k in tasks && (tasks[k] == s.queue.value.tasks[k] || (a == Cancel(k) && tasks[k].status.Cancelled?)))
  {
    hide PoolsOk, ExecutionsOk, IndexOk, HandedOnTime, Mirrors, Outcomes, Recovered;
    var r := s.queue.value;
    if k in s.workers {
      assert WorkerOk(s, r, k, s.workers[k]);
    }
  }

  // ---- ends across crashes ------------------------------------------------

  /** If the record drawn as generation `g` is here, it has ended. */
  predicate EndedIn(records: RecordMap, k: Key, g: Generation) {
    k in records && records[k].generation == g ==> Terminal(records[k].status)
  }

  /** It has ended in every state a crash can bring the pool back in. */
  ghost predicate PoolEnd(p: TaskPool, k: Key, g: Generation) {
    forall j: nat :: Revealable(p, j) ==> EndedIn(p.history[j], k, g)
  }

  ghost predicate EndHolds(s: System, k: Key, g: Generation) {
    g in s.owners && PoolEnd(PoolOf(s, k.tenant), k, g)
  }

  lemma ChangedKeepsEnd(p: TaskPool, records: RecordMap, k: Key, g: Generation)
    requires PoolEnd(p, k, g) && EndedIn(records, k, g)
    ensures PoolEnd(Changed(p, records), k, g)
  {
    hide EndedIn;
    var p' := Changed(p, records);
    forall j: nat | Revealable(p', j) ensures EndedIn(p'.history[j], k, g) {
      assert j < |p.history| ==> Revealable(p, j) && p'.history[j] == p.history[j];
    }
  }

  lemma AnchoredKeepsEnd(p: TaskPool, upto: nat, k: Key, g: Generation)
    requires PoolEnd(p, k, g)
    ensures PoolEnd(Anchored(p, upto), k, g)
  {
    hide EndedIn;
    forall j: nat | Revealable(Anchored(p, upto), j) ensures EndedIn(p.history[j], k, g) {
      assert Revealable(p, j);
    }
  }

  /** The state in use is among those a crash can bring back. */
  lemma LiveEnd(s: System, k: Key, g: Generation)
    requires EndHolds(s, k, g) && PoolsOk(s)
    ensures EndedIn(Live(PoolOf(s, k.tenant)), k, g)
  {
    var p := PoolOf(s, k.tenant);
    PoolOfOk(s, k.tenant);
    assert Revealable(p, |p.history| - 1);
  }

  /** New records keep the end if it shows in them. */
  lemma RecordsKeepEnd(s: System, k: Key, g: Generation, t: Tenant, records: RecordMap)
    requires EndHolds(s, k, g) && (t == k.tenant ==> EndedIn(records, k, g))
    ensures EndHolds(WithRecords(s, t, records), k, g)
  {
    hide EndedIn, PoolEnd;
    if t == k.tenant {
      ChangedKeepsEnd(PoolOf(s, t), records, k, g);
    }
  }

  /** A write keeps the end if what it writes is another record, another generation, or has ended. */
  lemma WriteKeepsEnd(s: System, k: Key, g: Generation, o: Key, task: Task)
    requires EndHolds(s, k, g) && PoolsOk(s)
    requires o == k && task.generation == g ==> Terminal(task.status)
    ensures EndHolds(Write(s, o, task), k, g)
  {
    hide EndHolds, PoolsOk;
    LiveEnd(s, k, g);
    RecordsKeepEnd(s, k, g, o.tenant, Live(PoolOf(s, o.tenant))[o := task]);
  }

  lemma FloorKeepsEnd(s: System, k: Key, g: Generation, t: Tenant, floor: nat)
    requires EndHolds(s, k, g)
    ensures EndHolds(RaiseFloor(s, t, floor), k, g)
  {
    hide EndedIn, PoolEnd;
    AnchoredKeepsEnd(PoolOf(s, k.tenant), floor, k, g);
  }

  /** A boot rewrites interrupted attempts alone, and those have not ended. */
  lemma RebootKeepsEnd(s: System, s': System, k: Key, g: Generation, revealed: map<Tenant, nat>, keys: set<Key>)
    requires EndHolds(s, k, g) && CanReveal(s, revealed) && s'.pools == Rebooted(s, revealed, keys) && s'.owners == s.owners
    ensures EndHolds(s', k, g)
  {
    if k.tenant in s.pools {
      var p := s.pools[k.tenant];
      var found: nat := revealed[k.tenant];
      assert Revealable(p, found);
      assert EndedIn(p.history[found], k, g);
      RewrittenEnd(p.history[found], keys, k, g);
      hide EndedIn, Rewritten, PoolEnd;
      ChangedKeepsEnd(p, Rewritten(p.history[found], keys), k, g);
    }
  }

  lemma RewrittenEnd(records: RecordMap, keys: set<Key>, k: Key, g: Generation)
    requires EndedIn(records, k, g)
    ensures EndedIn(Rewritten(records, keys), k, g)
  {
  }

  /** Steps that leave pools and owners as they are. */
  lemma SamePoolsEnd(s: System, s': System, k: Key, g: Generation)
    requires EndHolds(s, k, g) && s'.pools == s.pools && s'.owners == s.owners
    ensures EndHolds(s', k, g)
  {
    hide PoolEnd;
  }

  /** The record the index holds, if it is this one, has ended. */
  lemma IndexedEnd(s: System, r: Records, k: Key, g: Generation)
    requires EndHolds(s, k, g) && PoolsOk(s) && Mirrors(s, r.tasks)
    ensures EndedIn(r.tasks, k, g)
  {
    hide EndHolds, PoolsOk;
    LiveEnd(s, k, g);
  }

  lemma OutcomeKeepsEnd(s: System, o: Key, task: Task, queue: Option<Records>, k: Key, g: Generation)
    requires EndHolds(s, k, g) && PoolsOk(s) && (o == k && task.generation == g ==> Terminal(task.status))
    ensures var written := Write(s, o, task);
            && |PoolOf(written, o.tenant).history| > 0
            && EndHolds(Down(written), k, g)
            && EndHolds(RaiseFloor(written, o.tenant, |PoolOf(written, o.tenant).history| - 1).(queue := queue), k, g)
  {
    var written := Write(s, o, task);
    WrittenHistory(s, o, task);
    WriteKeepsEnd(s, k, g, o, task);
    hide EndHolds, PoolsOk, Write;
    var floor := |PoolOf(written, o.tenant).history| - 1;
    FloorKeepsEnd(written, k, g, o.tenant, floor);
    SamePoolsEnd(written, Down(written), k, g);
    SamePoolsEnd(RaiseFloor(written, o.tenant, floor), RaiseFloor(written, o.tenant, floor).(queue := queue), k, g);
  }

  lemma WorkerGone(s: System, o: Key)
    requires PoolsOk(s)
    ensures PoolsOk(s.(workers := s.workers - {o}))
  {
  }

  lemma FinishKeepsEnd(c: Setup, s: System, r: Records, o: Key, outcome: Outcome, anchored: bool, k: Key, g: Generation)
    requires EndHolds(s, k, g) && PoolsOk(s) && EndedIn(r.tasks, k, g) && o in s.workers && o in r.tasks
    ensures EndHolds(Finished(c, s, r, o, outcome, anchored), k, g)
  {
    WorkerGone(s, o);
    hide EndHolds, PoolsOk, Outcomes, Write, RaiseFloor, Stored;
    var task, s' := r.tasks[o], Finished(c, s, r, o, outcome, anchored);
    var idle := s.(workers := s.workers - {o});
    SamePoolsEnd(s, idle, k, g);
    if task.status.Cancelled? || outcome.Busy? {
      SamePoolsEnd(idle, s', k, g);
    } else {
      var next := Outcomes(task, outcome, s.clock, c.hash);
      if next.Err? {
        SamePoolsEnd(s, s', k, g);
      } else {
        OutcomeShape(task, outcome, s.clock, c.hash);
        OutcomeEnds(task, outcome, s.clock, c.hash);
        assert !(o == k && next.value.generation == g);
        OutcomeKeepsEnd(idle, o, next.value, Some(Stored(r, o, next.value)), k, g);
      }
    }
  }

  /** Only a running attempt has an outcome. */
  lemma OutcomeEnds(task: Task, outcome: Outcome, now: u64, hash: Key -> nat)
    requires !outcome.Busy? && Outcomes(task, outcome, now, hash).Ok?
    ensures task.status.Running?
  {
  }

  lemma WrittenHistory(s: System, k: Key, task: Task)
    ensures |PoolOf(Write(s, k, task), k.tenant).history| > 0
  {
  }

  lemma EnqueueKeepsEnd(s: System, r: Records, task: Task, k: Key, g: Generation)
    requires EndHolds(s, k, g) && PoolsOk(s) && task.generation !in s.owners
    ensures EndHolds(EnqueueStep(s, r, task), k, g)
  {
    NewGeneration(s, k, g, task.generation);
    WriteKeepsEnd(s, k, g, KeyOf(task), task);
    hide EndHolds, PoolsOk, Write;
    OwnersKeepEnd(Write(s, KeyOf(task), task), EnqueueStep(s, r, task), k, g, task.generation, KeyOf(task));
  }

  lemma CancelKeepsEnd(s: System, r: Records, o: Key, k: Key, g: Generation)
    requires EndHolds(s, k, g) && PoolsOk(s) && o in r.tasks
    ensures EndHolds(CancelStep(s, r, o), k, g)
  {
    hide EndHolds, PoolsOk, Write;
    WriteKeepsEnd(s, k, g, o, r.tasks[o].(status := Cancelled));
    SamePoolsEnd(Write(s, o, r.tasks[o].(status := Cancelled)), CancelStep(s, r, o), k, g);
  }

  lemma ForgetKeepsEnd(s: System, r: Records, o: Key, k: Key, g: Generation)
    requires EndHolds(s, k, g) && PoolsOk(s)
    ensures EndHolds(ForgetStep(s, r, o), k, g)
  {
    hide EndHolds, PoolsOk, WithRecords;
    LiveEnd(s, k, g);
    RecordsKeepEnd(s, k, g, o.tenant, Live(PoolOf(s, o.tenant)) - {o});
    SamePoolsEnd(WithRecords(s, o.tenant, Live(PoolOf(s, o.tenant)) - {o}), ForgetStep(s, r, o), k, g);
  }

  lemma BeginKeepsEnd(s: System, r: Records, o: Key, k: Key, g: Generation)
    requires EndHolds(s, k, g) && PoolsOk(s) && o in r.tasks && o in s.workers && r.tasks[o].status.Pending?
    requires EndedIn(r.tasks, k, g)
    ensures EndHolds(BeginStep(s, r, o), k, g)
  {
    hide EndHolds, PoolsOk, Write;
    WriteKeepsEnd(s, k, g, o, Begun(r.tasks[o]));
    SamePoolsEnd(Write(s, o, Begun(r.tasks[o])), BeginStep(s, r, o), k, g);
  }

  lemma QueueKeepsEnd(c: Setup, s: System, r: Records, a: Action, k: Key, g: Generation)
    requires EndHolds(s, k, g) && PoolsOk(s) && EndedIn(r.tasks, k, g) && QueueStep(c, s, r, a).Some?
    ensures EndHolds(QueueStep(c, s, r, a).value, k, g)
  {
    hide EndHolds, EndedIn, PoolsOk, EnqueueCheck, NoLater, Ready, OutcomeFits,
         EnqueueStep, CancelStep, ForgetStep, BeginStep, Finished, RaiseFloor;
    var s' := QueueStep(c, s, r, a).value;
    match a
    case Enqueue(tenant, id, payload, runAt, interval, generation) =>
      EnqueueKeepsEnd(s, r, NewTask(tenant, id, payload, runAt, interval, generation), k, g);
    case Cancel(o) => CancelKeepsEnd(s, r, o, k, g);
    case Forget(o) => ForgetKeepsEnd(s, r, o, k, g);
    case Begin(o) => BeginKeepsEnd(s, r, o, k, g);
    case AnchorReturns(o) => AnchorStepKeepsEnd(s, o, k, g);
    case Finish(o, outcome, anchored) => FinishKeepsEnd(c, s, r, o, outcome, anchored, k, g);
    case _ => SamePoolsEnd(s, s', k, g);
  }

  lemma AnchorStepKeepsEnd(s: System, o: Key, k: Key, g: Generation)
    requires EndHolds(s, k, g) && o in s.workers && s.workers[o].stage.Anchoring?
    ensures EndHolds(AnchorStep(s, o), k, g)
  {
    hide EndHolds, RaiseFloor;
    FloorKeepsEnd(s, k, g, o.tenant, s.workers[o].stage.mark);
    SamePoolsEnd(RaiseFloor(s, o.tenant, s.workers[o].stage.mark), AnchorStep(s, o), k, g);
  }

  lemma NewGeneration(s: System, k: Key, g: Generation, generation: Generation)
    requires EndHolds(s, k, g) && generation !in s.owners
    ensures generation != g
  {
  }

  lemma OwnersKeepEnd(s: System, s': System, k: Key, g: Generation, generation: Generation, o: Key)
    requires EndHolds(s, k, g) && s'.pools == s.pools && s'.owners == s.owners[generation := o]
    ensures EndHolds(s', k, g)
  {
    hide PoolEnd;
  }

  lemma UpEnd(s: System, r: Records, k: Key, g: Generation)
    requires Inv(s) && s.queue == Some(r) && EndHolds(s, k, g)
    ensures EndedIn(r.tasks, k, g)
  {
    hide EndHolds, PoolsOk, ExecutionsOk;
    IndexedEnd(s, r, k, g);
  }

  lemma StepKeepsEnd(c: Setup, s: System, a: Action, k: Key, g: Generation)
    requires Inv(s) && EndHolds(s, k, g) && Step(c, s, a).Some?
    ensures EndHolds(Step(c, s, a).value, k, g)
  {
    hide EndHolds, PoolsOk, ExecutionsOk, QueueOk, QueueStep, ValidRecord, Files, CanReveal, RaiseFloor;
    var s' := Step(c, s, a).value;
    match (a, s.queue)
    case (Tick(now), _) => SamePoolsEnd(s, s', k, g);
    case (OtherAnchor(t, upto), Some(r)) => FloorKeepsEnd(s, k, g, t, upto);
    case (Crash, Some(_)) => SamePoolsEnd(s, s', k, g);
    case (Reboot(revealed, flagged), None) =>
      RebootKeepsEnd(s, s', k, g, revealed, set o | o in Files(s, revealed) && o.tenant in flagged);
    case (CrashedReboot(revealed, rewritten), None) => RebootKeepsEnd(s, s', k, g, revealed, rewritten);
    case (_, Some(r)) => UpEnd(s, r, k, g); QueueKeepsEnd(c, s, r, a, k, g);
    case _ =>
  }

  lemma {:induction false} ExecKeepsEnd(c: Setup, s: System, actions: seq<Action>, k: Key, g: Generation)
    requires Inv(s) && EndHolds(s, k, g) && Exec(c, s, actions).Some?
    ensures Inv(Exec(c, s, actions).value) && EndHolds(Exec(c, s, actions).value, k, g)
  {
    if actions != [] {
      var before := actions[..|actions| - 1];
      ExecKeepsEnd(c, s, before, k, g);
      hide Inv, EndHolds, Step;
      StepKeeps(c, Exec(c, s, before).value, actions[|actions| - 1]);
      StepKeepsEnd(c, Exec(c, s, before).value, actions[|actions| - 1], k, g);
    }
  }

  /** An anchor returns that covers the tenant's state in use: the one behind an outcome just stored, or another. */
  predicate CoversInUse(s: System, a: Action, t: Tenant) {
    && s.queue.Some?
    && match a
       case Finish(k, outcome, anchored) =>
         && anchored && k.tenant == t && !outcome.Busy?
         && k in s.queue.value.tasks && s.queue.value.tasks[k].status.Running?
       case OtherAnchor(tenant, upto) => tenant == t && upto == |PoolOf(s, t).history| - 1
       case _ => false
  }

  lemma FloorAtInUse(s: System, t: Tenant)
    requires PoolsOk(s)
    ensures var p := PoolOf(RaiseFloor(s, t, |PoolOf(s, t).history| - 1), t);
            |PoolOf(s, t).history| > 0 && p.history != [] && p.floor == |p.history| - 1
  {
    PoolOfOk(s, t);
  }

  lemma StoredAtInUse(c: Setup, s: System, r: Records, k: Key, outcome: Outcome)
    requires PoolsOk(s) && k in s.workers && k in r.tasks && r.tasks[k].status.Running? && !outcome.Busy?
    requires RecordOk(s, k, r.tasks[k]) && Finished(c, s, r, k, outcome, true).queue.Some?
    ensures var p := PoolOf(Finished(c, s, r, k, outcome, true), k.tenant); p.history != [] && p.floor == |p.history| - 1
  {
    hide PoolsOk, Outcomes, RecordOk, Write, RaiseFloor, Stored;
    var idle, next := s.(workers := s.workers - {k}), Outcomes(r.tasks[k], outcome, s.clock, c.hash);
    if next.Ok? {
      WorkerGone(s, k);
      OutcomeRecordOk(s, k, r.tasks[k], outcome, s.clock, c.hash);
      RecordIdle(s, k, next.value);
      WriteOk(idle, k, next.value);
      FloorAtInUse(Write(idle, k, next.value), k.tenant);
    }
  }

  lemma RecordIdle(s: System, k: Key, task: Task)
    requires RecordOk(s, k, task)
    ensures RecordOk(s.(workers := s.workers - {k}), k, task)
  {
  }

  lemma OnlyInUse(c: Setup, s: System, a: Action, t: Tenant)
    requires Inv(s) && Step(c, s, a).Some? && CoversInUse(s, a, t) && Step(c, s, a).value.queue.Some?
    ensures var p := PoolOf(Step(c, s, a).value, t); p.history != [] && p.floor == |p.history| - 1
  {
    hide PoolsOk, ExecutionsOk, IndexOk, HandedOnTime, WorkersOk, RecordOk, Finished, RaiseFloor;
    if a.Finish? {
      LiveRecordOk(s, s.queue.value, a.k);
      StoredAtInUse(c, s, s.queue.value, a.k, a.outcome);
    } else {
      FloorAtInUse(s, t);
    }
  }

  /** Once it has, every record of the tenant that has ended there has ended in every state a crash can bring back. */
  lemma AnchorHoldsEnd(c: Setup, s: System, a: Action, k: Key)
    requires Inv(s) && Step(c, s, a).Some? && CoversInUse(s, a, k.tenant)
    requires var r := Step(c, s, a).value.queue; r.Some? && k in r.value.tasks && Terminal(r.value.tasks[k].status)
    ensures var s' := Step(c, s, a).value; EndHolds(s', k, s'.queue.value.tasks[k].generation)
  {
    hide Step, CoversInUse, Inv;
    StepKeeps(c, s, a);
    OnlyInUse(c, s, a, k.tenant);
    OnlyInUseEnds(Step(c, s, a).value, k);
  }

  lemma OnlyInUseEnds(s: System, k: Key)
    requires Inv(s) && s.queue.Some? && k in s.queue.value.tasks && Terminal(s.queue.value.tasks[k].status)
    requires var p := PoolOf(s, k.tenant); p.history != [] && p.floor == |p.history| - 1
    ensures EndHolds(s, k, s.queue.value.tasks[k].generation)
  {
    var r, p := s.queue.value, PoolOf(s, k.tenant);
    LiveRecordOk(s, r, k);
    hide PoolsOk, ExecutionsOk, IndexOk, HandedOnTime, WorkersOk;
    assert Live(p) == p.history[|p.history| - 1];
  }

  /** From then on, through any crashes and whatever each boot is shown, that record is never again anything but
      ended: not pending and not running, until it is forgotten and after. */
  lemma EndedForGood(c: Setup, before: seq<Action>, a: Action, k: Key, after: seq<Action>)
    requires Run(c, before).Some? && Step(c, Run(c, before).value, a).Some? && CoversInUse(Run(c, before).value, a, k.tenant)
    requires var r := Step(c, Run(c, before).value, a).value.queue;
             r.Some? && k in r.value.tasks && Terminal(r.value.tasks[k].status)
    requires Exec(c, Step(c, Run(c, before).value, a).value, after).Some?
    ensures var s := Step(c, Run(c, before).value, a).value;
            var g, later := s.queue.value.tasks[k].generation, Exec(c, s, after).value;
            && EndHolds(later, k, g)
            && (later.queue.Some? ==> EndedIn(later.queue.value.tasks, k, g))
  {
    var s := Run(c, before).value;
    var s' := Step(c, s, a).value;
    var g := s'.queue.value.tasks[k].generation;
    RunKeeps(c, before);
    StepKeeps(c, s, a);
    AnchorHoldsEnd(c, s, a, k);
    hide Step, Exec, Run, EndHolds, PoolsOk, ExecutionsOk;
    ExecKeepsEnd(c, s', after, k, g);
    var later := Exec(c, s', after).value;
    if later.queue.Some? {
      IndexedEnd(later, later.queue.value, k, g);
    }
  }

  // ---- taking turns -------------------------------------------------------

  /** The records handed out along a run, each with what the queue looked like then. */
  function HandedAlong(c: Setup, s: System, actions: seq<Action>): seq<Call>
    requires Exec(c, s, actions).Some?
  {
    if actions == [] then []
    else
      var before := Exec(c, s, actions[..|actions| - 1]).value;
      var a := actions[|actions| - 1];
      var earlier := HandedAlong(c, s, actions[..|actions| - 1]);
      if a.Hand? && before.queue.Some? then earlier + [Call(before.queue.value, before.clock, a.entry)] else earlier
  }

  lemma TurnsKept(c: Setup, s: System, a: Action)
    requires Step(c, s, a).Some? && !a.Hand? && s.queue.Some? && Step(c, s, a).value.queue.Some?
    ensures Step(c, s, a).value.queue.value.last == s.queue.value.last
  {
  }

  lemma HandIsPick(c: Setup, s: System, e: Entry)
    requires Step(c, s, Hand(e)).Some?
    ensures s.queue.Some? && IsPick(s.queue.value, s.clock, e)
    ensures var s' := Step(c, s, Hand(e)).value; s'.queue.Some? && s'.queue.value.last == Some(e.key.tenant)
  {
  }

  /** A queue that is up was up a step before, unless it has just booted. */
  lemma UpBefore(c: Setup, s: System, a: Action)
    requires Step(c, s, a).Some? && !a.Reboot? && Step(c, s, a).value.queue.Some?
    ensures s.queue.Some?
  {
  }

  lemma {:induction false} HandedSuccessive(c: Setup, s: System, actions: seq<Action>)
    requires Exec(c, s, actions).Some? && s.queue.Some?
    requires forall a :: a in actions ==> !a.Reboot?
    ensures var calls, end := HandedAlong(c, s, actions), Exec(c, s, actions).value;
            && Successive(calls)
            && (calls != [] && end.queue.Some? ==> end.queue.value.last == Some(calls[|calls| - 1].handed.key.tenant))
  {
    hide Step, IsPick;
    if actions != [] {
      var a := actions[|actions| - 1];
      var before := Exec(c, s, actions[..|actions| - 1]).value;
      assert a in actions;
      HandedSuccessive(c, s, actions[..|actions| - 1]);
      if a.Hand? {
        HandIsPick(c, before, a.entry);
      } else if Exec(c, s, actions).value.queue.Some? {
        UpBefore(c, before, a);
        TurnsKept(c, before, a);
      }
    }
  }

  /** Bounded bypass: along any stretch of a run in which a tenant always has a record ready and is
      never served, no other tenant is served twice, whatever else happens to the queue. */
  lemma NoTenantServedTwiceFirst(c: Setup, s: System, actions: seq<Action>, t: Tenant)
    requires Exec(c, s, actions).Some? && s.queue.Some?
    requires forall a :: a in actions ==> !a.Reboot?
    requires forall call :: call in HandedAlong(c, s, actions) ==>
               HasReady(call.seen, call.now, t) && call.handed.key.tenant != t
    ensures var calls := HandedAlong(c, s, actions);
            forall i, j :: 0 <= i < j < |calls| ==> calls[i].handed.key.tenant != calls[j].handed.key.tenant
  {
    HandedSuccessive(c, s, actions);
    BoundedBypass(HandedAlong(c, s, actions), t);
  }
}
