/** What becomes of a record whose turn has come when nothing fails: its attempt runs once, and its outcome is recorded. */
module TaskProgress {
  import opened Wrappers
  import opened Tasks
  import opened TaskIndex
  import opened TaskRuns
  import opened Pools

  /** An attempt from the hand-out of its record to its outcome. */
  function Attempt(e: Entry, outcome: Outcome): seq<Action> {
    [Hand(e), Begin(e.key), AnchorReturns(e.key), Execute(e.key), Finish(e.key, outcome, true)]
  }

  /** The outcome fits the record: a recurring job that succeeds has another occurrence to go to. */
  predicate CanConclude(task: Task, outcome: Outcome) {
    && !outcome.Busy?
    && (outcome.Success? && task.intervalMs.Some? ==> task.intervalMs.value > 0 && task.occurrence < U64_MAX)
  }

  /** A pending record before an attempt, and as the attempt leaves it. */
  ghost predicate Concluded(before: Task, after: Task, outcome: Outcome, now: u64, hash: Key -> nat) {
    && KeyOf(after) == KeyOf(before) && after.payload == before.payload && after.generation == before.generation
    && after.intervalMs == before.intervalMs && after.requestedRunAt == before.requestedRunAt
    && match outcome
       case Busy => false
       case Success(bytes) =>
         && after.result == bytes && after.error.None?
         && (match before.intervalMs
             case None => after.status.Completed? && after.occurrence == before.occurrence && after.attempts == before.attempts + 1
             case Some(interval) =>
               && after.status.Pending? && after.occurrence == before.occurrence + 1 && after.attempts == 0
               && interval > 0 && RunsNext(after.runAt, now, interval, hash(KeyOf(before)) % interval))
       case Failure(message) =>
         && after.result == before.result && after.occurrence == before.occurrence && after.attempts == before.attempts + 1
         && after.status == (if after.attempts >= MAX_ATTEMPTS then Failed else Pending)
         && after.error.Some? && after.error.value <= message
         && (after.runAt > now || after.runAt == U64_MAX)
  }

  lemma OutcomeConcludes(task: Task, outcome: Outcome, now: u64, hash: Key -> nat)
    requires CanConclude(task, outcome)
    ensures var next := Outcomes(Begun(task), outcome, now, hash);
            next.Ok? && Concluded(task, next.value, outcome, now, hash)
  {
    assert Outcomes(Begun(task), outcome, now, hash).Ok?;
    OutcomeShape(Begun(task), outcome, now, hash);
    match outcome
    case Success(bytes) =>
      if task.intervalMs.Some? {
        SuccessRunsNext(Begun(task), bytes, now, hash);
      }
    case Failure(message) => FailureWaits(Begun(task), message, now, hash);
  }

  /** What the record's turn coming means in the system. */
  lemma TurnComes(s: System, e: Entry)
    requires Inv(s) && s.queue.Some? && IsPick(s.queue.value, s.clock, e)
    ensures var r := s.queue.value;
            e in r.due && e.key in r.tasks && e.key !in r.active && e.key !in s.workers
            && r.tasks[e.key].status.Pending? && KeyOf(r.tasks[e.key]) == e.key
  {
  }

  lemma StepsTo(c: Setup, actions: seq<Action>, a: Action) returns (more: seq<Action>)
    requires Run(c, actions).Some?
    ensures more == actions + [a] && Run(c, more) == Step(c, Run(c, actions).value, a)
  {
    more := actions + [a];
    assert more[..|more| - 1] == actions;
  }

  lemma Handing(c: Setup, s: System, e: Entry)
    requires Inv(s) && s.queue.Some? && IsPick(s.queue.value, s.clock, e)
    ensures e.key in s.queue.value.tasks
    ensures Step(c, s, Hand(e)) == Some(HandStep(s, s.queue.value, e))
  {
    TurnComes(s, e);
    hide Inv, NoLater;
  }

  /** Handed out, begun, anchored and run. */
  lemma Running(c: Setup, s: System, e: Entry, task: Task) returns (t: System, u: System, v: System)
    requires s.queue.Some? && e.key in s.workers && s.workers[e.key] == Worker(task, Handed)
    requires e.key in s.queue.value.tasks && s.queue.value.tasks[e.key] == task && task.status.Pending? && KeyOf(task) == e.key
    ensures Step(c, s, Begin(e.key)) == Some(t) && Step(c, t, AnchorReturns(e.key)) == Some(u)
    ensures Step(c, u, Execute(e.key)) == Some(v)
    ensures v.queue == Some(s.queue.value.(tasks := s.queue.value.tasks[e.key := Begun(task)])) && v.clock == s.clock
    ensures v.workers == s.workers[e.key := Worker(task, Executed)]
    ensures v.executions == s.executions[RunIdOf(task) := Executions(s, RunIdOf(task)) + 1]
  {
    t := BeginStep(s, s.queue.value, e.key);
    u := AnchorStep(t, e.key);
    v := ExecuteStep(u, e.key);
  }

  lemma Finishing(c: Setup, s: System, k: Key, task: Task, outcome: Outcome) returns (t: System)
    requires s.queue.Some? && k in s.workers && s.workers[k].stage.Executed?
    requires k in s.queue.value.tasks && s.queue.value.tasks[k] == Begun(task) && KeyOf(task) == k
    requires CanConclude(task, outcome)
    ensures Step(c, s, Finish(k, outcome, true)) == Some(t)
    ensures var next := Outcomes(Begun(task), outcome, s.clock, c.hash);
            && next.Ok? && t.queue == Some(Stored(s.queue.value, k, next.value))
            && t.workers == s.workers - {k} && t.executions == s.executions
            && OnlyRevealed(PoolOf(t, k.tenant), k, next.value)
  {
    OutcomeConcludes(task, outcome, s.clock, c.hash);
    hide Outcomes;
    var next := Outcomes(Begun(task), outcome, s.clock, c.hash).value;
    t := Finished(c, s, s.queue.value, k, outcome, true);
    var written := Write(s.(workers := s.workers - {k}), k, next);
    assert |PoolOf(written, k.tenant).history| > 0;
  }

  /** Whatever a crash brings this pool back to holds the record as it is here. */
  ghost predicate OnlyRevealed(p: TaskPool, k: Key, task: Task) {
    && p.history != []
    && forall i: nat :: Revealable(p, i) ==> k in p.history[i] && p.history[i][k] == task
  }

  /** From every reachable state, the record whose turn it is can be attempted: it is run exactly once more, its outcome
      is in the index and in everything a crash can bring back, it is queued again if there is more to come, and no
      worker holds it. */
  lemma AttemptConcludes(c: Setup, actions: seq<Action>, e: Entry, outcome: Outcome)
    requires Run(c, actions).Some? && Run(c, actions).value.queue.Some?
    requires var s := Run(c, actions).value;
             IsPick(s.queue.value, s.clock, e) && CanConclude(s.queue.value.tasks[e.key], outcome)
    ensures Run(c, actions + Attempt(e, outcome)).Some?
    ensures var s, s', k := Run(c, actions).value, Run(c, actions + Attempt(e, outcome)).value, e.key;
            var task := s.queue.value.tasks[k];
            && s'.queue.Some? && k in s'.queue.value.tasks
            && Concluded(task, s'.queue.value.tasks[k], outcome, s.clock, c.hash)
            && s'.queue.value.tasks == s.queue.value.tasks[k := s'.queue.value.tasks[k]]
            && s'.executions == s.executions[RunIdOf(task) := Executions(s, RunIdOf(task)) + 1]
            && s'.workers == s.workers && k !in s'.queue.value.active
            && s'.queue.value.due == s.queue.value.due - {e}
               + (if s'.queue.value.tasks[k].status.Pending? then {Entry(s'.queue.value.tasks[k].runAt, k)} else {})
            && OnlyRevealed(PoolOf(s', k.tenant), k, s'.queue.value.tasks[k])
  {
    hide Run, Exec, Step, Inv, NoLater, Outcomes, Concluded, OnlyRevealed;
    var s, k := Run(c, actions).value, e.key;
    var task := s.queue.value.tasks[k];
    RunKeeps(c, actions);
    TurnComes(s, e);
    Handing(c, s, e);
    var one := StepsTo(c, actions, Hand(e));
    var t, u, v := Running(c, Run(c, one).value, e, task);
    var two := StepsTo(c, one, Begin(k));
    var three := StepsTo(c, two, AnchorReturns(k));
    var four := StepsTo(c, three, Execute(k));
    var w := Finishing(c, v, k, task, outcome);
    OutcomeConcludes(task, outcome, s.clock, c.hash);
    var five := StepsTo(c, four, Finish(k, outcome, true));
    assert five == actions + Attempt(e, outcome);
  }

  // ---- an id stands for one input -----------------------------------------

  predicate SameInput(a: Task, b: Task) {
    a.payload == b.payload && a.intervalMs == b.intervalMs && a.requestedRunAt == b.requestedRunAt
  }

  /** Nothing that happens to a record while the queue is up changes what it was enqueued with. */
  lemma InputStands(c: Setup, s: System, a: Action, k: Key)
    requires s.queue.Some? && k in s.queue.value.tasks && Step(c, s, a).Some?
    requires Step(c, s, a).value.queue.Some? && k in Step(c, s, a).value.queue.value.tasks
    ensures SameInput(Step(c, s, a).value.queue.value.tasks[k], s.queue.value.tasks[k])
  {
    hide Outcomes, NoLater, ValidId, SameInput, EnqueueCheck;
    var r := s.queue.value;
    if a.Finish? && a.k in s.workers && a.k in r.tasks && !a.outcome.Busy? && Outcomes(r.tasks[a.k], a.outcome, s.clock, c.hash).Ok? {
      OutcomeKeepsInput(r.tasks[a.k], a.outcome, s.clock, c.hash);
    }
    if a.Enqueue? {
      NewKey(r, c.limits, NewTask(a.tenant, a.id, a.payload, a.runAt, a.interval, a.generation));
    }
    SameInputItself(r.tasks[k]);
  }

  lemma SameInputItself(task: Task)
    ensures SameInput(task, task) && SameInput(Begun(task), task) && SameInput(task.(status := Cancelled), task)
  {
  }

  lemma NewKey(r: Records, limits: Limits, task: Task)
    requires EnqueueCheck(r, limits, task) == Ok(true)
    ensures KeyOf(task) !in r.tasks
  {
  }

  lemma OutcomeKeepsInput(task: Task, outcome: Outcome, now: u64, hash: Key -> nat)
    requires !outcome.Busy? && Outcomes(task, outcome, now, hash).Ok?
    ensures SameInput(Outcomes(task, outcome, now, hash).value, task)
  {
    OutcomeShape(task, outcome, now, hash);
  }
}
