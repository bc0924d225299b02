/** What the in-memory index keeps true through every queue operation, whose turn it is, and when. */
module TaskIndex {
  import opened Wrappers
  import opened Tasks

  predicate InDue(r: Records, k: Key) {
    exists e :: e in r.due && e.key == k
  }

  /** The index is exact: a pending record is either queued once or in a worker's hands, a running one
      is in a worker's hands, and nothing else is queued. */
  predicate IndexOk(r: Records) {
    && (forall k :: k in r.tasks ==> KeyOf(r.tasks[k]) == k)
    && r.active <= r.tasks.Keys
    && (forall e :: e in r.due ==> e.key in r.tasks && e.key !in r.active && r.tasks[e.key].status.Pending?)
    && (forall d, e :: d in r.due && e in r.due && d.key == e.key ==> d == e)
    && (forall k :: k in r.tasks && r.tasks[k].status.Pending? ==> k in r.active || InDue(r, k))
    && (forall k :: k in r.tasks && r.tasks[k].status.Running? ==> k in r.active)
    && (forall e :: e in r.due ==> e.at >= r.tasks[e.key].runAt)
  }

  /** A worker holds no pending record whose time has not come. */
  predicate HandedOnTime(r: Records, clock: u64) {
    forall k :: k in r.active && k in r.tasks && r.tasks[k].status.Pending? ==> r.tasks[k].runAt <= clock
  }

  lemma EnqueuedOk(r: Records, limits: Limits, task: Task)
    requires IndexOk(r) && EnqueueCheck(r, limits, task) == Ok(true) && task.status.Pending?
    ensures IndexOk(Enqueued(r, task))
    ensures forall clock: u64 :: HandedOnTime(r, clock) ==> HandedOnTime(Enqueued(r, task), clock)
  {
  }

  lemma CancelledOk(r: Records, k: Key)
    requires IndexOk(r) && k in r.tasks
    ensures IndexOk(CancelledTask(r, k))
    ensures forall clock: u64 :: HandedOnTime(r, clock) ==> HandedOnTime(CancelledTask(r, k), clock)
  {
  }

  lemma ForgottenOk(r: Records, k: Key)
    requires IndexOk(r) && Forgettable(r, k)
    ensures IndexOk(Forgotten(r, k))
    ensures forall clock: u64 :: HandedOnTime(r, clock) ==> HandedOnTime(Forgotten(r, k), clock)
  {
  }

  /** Handing a record out moves it from the queue to the worker, and never before its time. */
  lemma PickedOk(r: Records, now: u64, e: Entry)
    requires IndexOk(r) && Ready(r, now, e)
    ensures IndexOk(Picked(r, e)) && e.key !in r.active && r.tasks[e.key].status.Pending?
    ensures r.tasks[e.key].runAt <= now
    ensures HandedOnTime(r, now) ==> HandedOnTime(Picked(r, e), now)
  {
  }

  lemma BegunOk(r: Records, k: Key)
    requires IndexOk(r) && k in r.active && r.tasks[k].status.Pending?
    ensures IndexOk(r.(tasks := r.tasks[k := Begun(r.tasks[k])]))
    ensures forall clock: u64 :: HandedOnTime(r, clock) ==> HandedOnTime(r.(tasks := r.tasks[k := Begun(r.tasks[k])]), clock)
  {
  }

  lemma ReleasedOk(r: Records, k: Key)
    requires IndexOk(r) && k in r.active && Terminal(r.tasks[k].status)
    ensures IndexOk(r.(active := r.active - {k}))
    ensures forall clock: u64 :: HandedOnTime(r, clock) ==> HandedOnTime(r.(active := r.active - {k}), clock)
  {
  }

  /** A busy tenant's record goes back on the queue, a little later and still not before its time. */
  lemma RequeuedOk(r: Records, k: Key, now: u64)
    requires IndexOk(r) && k in r.active && r.tasks[k].status.Pending? && r.tasks[k].runAt <= now
    ensures IndexOk(r.(active := r.active - {k}, due := r.due + {Entry(SaturatingAdd(now, 100), k)}))
    ensures forall clock: u64 :: HandedOnTime(r, clock) ==> HandedOnTime(r.(active := r.active - {k}, due := r.due + {Entry(SaturatingAdd(now, 100), k)}), clock)
  {
  }

  lemma StoredOk(r: Records, k: Key, task: Task)
    requires IndexOk(r) && k in r.active && KeyOf(task) == k && !task.status.Running?
    ensures IndexOk(Stored(r, k, task))
    ensures forall clock: u64 :: HandedOnTime(r, clock) ==> HandedOnTime(Stored(r, k, task), clock)
  {
  }

  lemma ScannedOk(files: map<Key, Task>, keys: set<Key>, now: u64, hash: Key -> nat)
    requires keys <= files.Keys && forall k :: k in keys ==> ValidRecord(k, files[k])
    ensures IndexOk(Scanned(files, keys, now, hash))
  {
  }

  lemma ShiftPositive(k: nat)
    ensures Shift(k) >= 1
  {
  }

  /** Outcomes keep a record's identity, and leave it in no worker's hands: a success completes it or starts the
      next occurrence, a failure waits and tries again until the attempts are spent. */
  lemma OutcomeShape(task: Task, outcome: Outcome, now: u64, hash: Key -> nat)
    requires !outcome.Busy? && Outcomes(task, outcome, now, hash).Ok?
    ensures var next := Outcomes(task, outcome, now, hash).value;
            && KeyOf(next) == KeyOf(task) && next.generation == task.generation && next.payload == task.payload
            && next.intervalMs == task.intervalMs && next.requestedRunAt == task.requestedRunAt
            && !next.status.Running?
            && (next.occurrence == task.occurrence ==> next.attempts == task.attempts)
            && (next.occurrence != task.occurrence ==> next.occurrence == task.occurrence + 1 && next.attempts == 0)
            && (next.status.Pending? ==> next.attempts < MAX_ATTEMPTS)
            && (outcome.Success? ==>
                && next.result == outcome.bytes && next.error.None?
                && (next.status.Completed? <==> task.intervalMs.None?)
                && (next.status.Pending? <==> next.occurrence == task.occurrence + 1))
            && (!outcome.Success? ==>
                && next.occurrence == task.occurrence && next.result == task.result
                && next.status == (if task.attempts >= MAX_ATTEMPTS then Failed else Pending)
                && next.error.Some? && (next.runAt > now || next.runAt == U64_MAX))
  {
    ShiftPositive(if task.attempts < 8 then task.attempts else 8);
  }

  /** An interrupted attempt stays spent: its record is tried again under its own occurrence or has failed for good, with
      nothing else of it changed, and queued no earlier than its time and within a second of the boot if that is past. */
  lemma RecoveredShape(task: Task, now: u64, hash: Key -> nat)
    ensures var next, at := Recovered(task), RecoveredDue(task, now, hash);
            && next == task.(status := next.status, error := next.error)
            && (!task.status.Running? ==> next == task)
            && (task.status.Running? ==> next.error.Some? && if task.attempts >= MAX_ATTEMPTS then next.status.Failed? else next.status.Pending?)
            && at >= task.runAt && (at == task.runAt || now <= at < now + 1000)
            && (at == task.runAt || at == U64_MAX || AtPhase(at - now, 1000, hash(KeyOf(task)) % 1000))
  {
  }

  // ---- taking turns -------------------------------------------------------

  predicate HasReady(r: Records, now: u64, t: Tenant) {
    exists e :: e in r.due && Ready(r, now, e) && e.key.tenant == t
  }

  /** Between two records of a tenant that always has one ready, no other tenant is served twice:
      `calls` are the records each call of the queue saw, its clock, and the record it handed out. */
  datatype Call = Call(seen: Records, now: u64, handed: Entry)

  ghost predicate Successive(calls: seq<Call>) {
    && (forall i :: 0 <= i < |calls| ==> IsPick(calls[i].seen, calls[i].now, calls[i].handed))
    && (forall i, j :: 0 <= i < |calls| && 0 <= j < |calls| && j == i + 1 ==>
          calls[j].seen.last == Some(calls[i].handed.key.tenant))
  }

  /** The tenant after `x` and before `t` on the way round from `last`. */
  predicate Between(last: Option<Tenant>, x: Tenant, t: Tenant) {
    x != t && Ahead(last, x, t)
  }

  lemma PickAhead(c: Call, t: Tenant)
    requires IsPick(c.seen, c.now, c.handed) && HasReady(c.seen, c.now, t) && c.handed.key.tenant != t
    ensures Between(c.seen.last, c.handed.key.tenant, t)
  {
    var e :| e in c.seen.due && Ready(c.seen, c.now, e) && e.key.tenant == t;
    assert NoLater(c.seen.last, c.handed, e);
  }

  lemma {:induction false} ServedStaysBehind(calls: seq<Call>, t: Tenant, i: nat, j: nat)
    requires Successive(calls) && i < j < |calls|
    requires forall k :: 0 <= k < |calls| ==> HasReady(calls[k].seen, calls[k].now, t) && calls[k].handed.key.tenant != t
    ensures Between(Some(calls[i].handed.key.tenant), calls[j].handed.key.tenant, t)
    decreases j - i
  {
    PickAhead(calls[j], t);
    if i + 1 < j {
      ServedStaysBehind(calls, t, i, j - 1);
      assert calls[j].seen.last == Some(calls[j - 1].handed.key.tenant);
    }
  }

  lemma BoundedBypass(calls: seq<Call>, t: Tenant)
    requires Successive(calls)
    requires forall k :: 0 <= k < |calls| ==> HasReady(calls[k].seen, calls[k].now, t) && calls[k].handed.key.tenant != t
    ensures forall i, j :: 0 <= i < j < |calls| ==> calls[i].handed.key.tenant != calls[j].handed.key.tenant
  {
    forall i, j | 0 <= i < j < |calls| ensures calls[i].handed.key.tenant != calls[j].handed.key.tenant {
      ServedStaysBehind(calls, t, i, j);
    }
  }

  /** Within a tenant the earliest deadline goes first, and of equal ones the id that comes first. */
  lemma EarliestFirst(r: Records, now: u64, e: Entry, o: Entry)
    requires IsPick(r, now, e) && Ready(r, now, o) && o.key.tenant == e.key.tenant
    ensures e.at < o.at || (e.at == o.at && IdNoLater(e.key.id, o.key.id))
  {
  }
}
