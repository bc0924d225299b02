/** Opens, closes and the supervising loop, interleaved: no wakeup is lost. */
module Supervision {
  import opened Wrappers
  import opened Streams

  /** Where the supervising loop is: waiting, about to list the records, or holding a list it took. */
  datatype Loop = Parked | Awake | Listed(wanted: Records)

  /** `inFlight` counts opens and closes that changed the records and have not notified yet. `failed` says that a
      close of a standing record has failed halfway since the loop last listed the records, `exited` that a task
      has ended by itself since its last pass. */
  datatype World = World(records: Records, generations: nat, permit: bool, inFlight: nat, loop: Loop, crew: Crew, failed: bool, exited: bool)

  /** A registry just read back, its loop not yet begun. */
  function Booted(loaded: Records): World {
    World(loaded, 1, false, 0, Awake, Crew(map[], map[], 0), false, false)
  }

  datatype Action =
    | Open(key: Key, origin: string)
    | OpenUnwritten(key: Key, origin: string)
    | Close(key: Key)
    | CloseFails(key: Key)
    | Notify
    | Wake
    | Timeout
    | List
    | Reconcile(after: Crew)
    | Exit(handle: nat)

  ghost function Next(w: World, action: Action): World {
    match action
    case Open(key, origin) =>
      if Meets(w.records, key, origin).New? then
        w.(records := Opened(w.records, key, origin, w.generations), generations := w.generations + 1, inFlight := w.inFlight + 1)
      else w
    case OpenUnwritten(key, origin) =>
      if Meets(w.records, key, origin).New? then w.(generations := w.generations + 1) else w
    case Close(key) => w.(records := Closed(w.records, key), inFlight := w.inFlight + 1)
    case CloseFails(key) => if key in w.records then w.(records := Closed(w.records, key), failed := true) else w
    case Notify => if w.inFlight > 0 then w.(inFlight := w.inFlight - 1, permit := true) else w
    case Wake => if w.loop.Parked? && w.permit then w.(permit := false, loop := Awake) else w
    case Timeout => if w.loop.Parked? then w.(loop := Awake) else w
    case List => if w.loop.Awake? then w.(loop := Listed(w.records), failed := false) else w
    case Reconcile(after) =>
      if w.loop.Listed? && Staffed(after, w.loop.wanted) && Follows(w.crew, after, w.loop.wanted) then w.(crew := after, loop := Parked, exited := false)
      else w
    case Exit(handle) => if handle in w.crew.running then w.(crew := w.crew.(running := w.crew.running - {handle}), exited := true) else w
  }

  ghost function Run(w: World, actions: seq<Action>): World {
    if actions == [] then w else Next(Run(w, actions[..|actions| - 1]), actions[|actions| - 1])
  }

  /** Nothing is on its way to wake the loop. */
  ghost predicate Still(w: World) {
    !w.permit && w.inFlight == 0
  }

  /** These records all stand in the list, as they were listed. */
  ghost predicate Within(records: Records, wanted: Records) {
    forall k :: k in records ==> k in wanted && wanted[k] == records[k]
  }

  ghost predicate SomeGone(records: Records, wanted: Records) {
    exists k :: k in wanted && k !in records
  }

  ghost predicate SomeEnded(c: Crew) {
    exists k :: k in c.live && c.live[k].handle !in c.running
  }

  /** The records the crew was started for. */
  ghost function Served(c: Crew): Records {
    map k | k in c.live :: c.live[k].record
  }

  /** While nothing is on its way, the records are those last listed, less any whose close failed; and the crew of a
      waiting loop is for those listed, less any task that ended. */
  ghost predicate Inv(w: World) {
    && CrewOk(w.crew) && RecordsOk(w.records)
    && (w.loop.Listed? ==> RecordsOk(w.loop.wanted))
    && (w.loop.Listed? && Still(w) ==> Within(w.records, w.loop.wanted) && (w.failed <==> SomeGone(w.records, w.loop.wanted)))
    && (w.loop.Parked? ==> (w.exited <==> SomeEnded(w.crew)))
    && (w.loop.Parked? && Still(w) ==> Within(w.records, Served(w.crew)) && (w.failed <==> SomeGone(w.records, Served(w.crew))))
  }

  ghost predicate GenerationsOk(w: World) {
    && (forall k :: k in w.records ==> w.records[k].generation < w.generations)
    && (w.loop.Listed? ==> forall k :: k in w.loop.wanted ==> w.loop.wanted[k].generation < w.generations)
    && (forall h :: h in w.crew.running ==> w.crew.running[h].generation < w.generations)
  }

  /** A crew is staffed exactly when none of its records is gone and none of its tasks has ended. */
  lemma StaffedIff(c: Crew, records: Records)
    requires CrewOk(c) && Within(records, Served(c))
    ensures Staffed(c, records) <==> !SomeGone(records, Served(c)) && !SomeEnded(c)
  {
    if !SomeGone(records, Served(c)) {
      assert forall k :: k in c.live <==> k in Served(c);
      assert c.live.Keys == records.Keys;
    }
    if Staffed(c, records) {
      assert forall k :: k in c.live ==> k in c.live.Keys;
    }
  }

  lemma ServedAfter(after: Crew, wanted: Records)
    requires Staffed(after, wanted)
    ensures Served(after) == wanted && !SomeEnded(after)
  {
    assert forall k :: k in after.live <==> k in after.live.Keys;
  }

  lemma NextKeeps(w: World, action: Action)
    requires Inv(w)
    ensures Inv(Next(w, action))
  {
    match action
    case Reconcile(after) =>
      if Next(w, action) != w {
        ServedAfter(after, w.loop.wanted);
      }
      hide Staffed, CrewOk, Meets, Follows, Within, SomeGone, SomeEnded, Served;
    case Exit(handle) => ExitKeeps(w, handle);
    case CloseFails(key) => CloseFailsKeeps(w, key);
    case _ => hide Staffed, CrewOk, Meets, Follows, SomeEnded, Served;
  }

  lemma ExitKeeps(w: World, handle: nat)
    requires Inv(w)
    ensures Inv(Next(w, Exit(handle)))
  {
    hide Within, SomeGone;
    if handle in w.crew.running {
      var c := w.crew.(running := w.crew.running - {handle});
      assert Served(c) == Served(w.crew);
      var k := w.crew.running[handle].key;
      assert k in c.live && c.live[k].handle !in c.running;
    }
  }

  lemma CloseFailsKeeps(w: World, key: Key)
    requires Inv(w)
    ensures Inv(Next(w, CloseFails(key)))
  {
    hide CrewOk, SomeEnded, Served;
    if key in w.records {
      var records := w.records - {key};
      if w.loop.Listed? && Still(w) {
        assert key in w.loop.wanted && key !in records;
      }
      if w.loop.Parked? && Still(w) {
        assert key in Served(w.crew) && key !in records;
      }
    }
  }

  lemma {:induction false} RunKeeps(w: World, actions: seq<Action>)
    requires Inv(w)
    ensures Inv(Run(w, actions))
  {
    if actions != [] {
      RunKeeps(w, actions[..|actions| - 1]);
      hide Inv, Next;
      NextKeeps(Run(w, actions[..|actions| - 1]), actions[|actions| - 1]);
    }
  }

  /** In any run, when the loop waits with no permit and nothing on its way to notify it, exactly the standing
      records are supervised, each by a running task for its own generation, if and only if no close of a standing
      record has failed since it listed them and no task has ended since its pass. */
  lemma NoWakeupLost(loaded: Records, actions: seq<Action>)
    requires RecordsOk(loaded)
    ensures var w := Run(Booted(loaded), actions);
            w.loop.Parked? && Still(w) ==> (Staffed(w.crew, w.records) <==> !w.failed && !w.exited)
  {
    RunKeeps(Booted(loaded), actions);
    var w := Run(Booted(loaded), actions);
    hide Run, Staffed, CrewOk, Within, SomeGone, SomeEnded, Served;
    if w.loop.Parked? && Still(w) {
      StaffedIff(w.crew, w.records);
    }
  }

  /** Whatever came before, the loop can always make its next pass, and one with nothing in between leaves exactly
      the standing records supervised. */
  lemma PassSettles(loaded: Records, actions: seq<Action>) returns (after: Crew)
    requires RecordsOk(loaded) && Run(Booted(loaded), actions).loop.Parked?
    ensures var w := Run(Booted(loaded), actions);
            var settled := Next(Next(Next(w, Timeout), List), Reconcile(after));
            settled.loop.Parked? && settled.records == w.records && Staffed(settled.crew, w.records)
  {
    RunKeeps(Booted(loaded), actions);
    var w := Run(Booted(loaded), actions);
    hide Run;
    after := PassExists(w.crew, w.records);
  }

  // ---- close and reopen ---------------------------------------------------

  lemma NextGenerations(w: World, action: Action)
    requires Inv(w) && GenerationsOk(w)
    ensures GenerationsOk(Next(w, action)) && Next(w, action).generations >= w.generations
  {
  }

  /** A task that runs is the one that was started: its record never changes under it. */
  lemma NextTasks(w: World, action: Action)
    requires Inv(w)
    ensures var n := Next(w, action);
            w.crew.next <= n.crew.next
            && forall h :: h in n.crew.running && h < w.crew.next ==> h in w.crew.running && n.crew.running[h] == w.crew.running[h]
  {
    hide Meets, CrewOk, Staffed;
  }

  lemma {:induction false} RunTasks(w: World, actions: seq<Action>)
    requires Inv(w) && GenerationsOk(w)
    ensures var n := Run(w, actions);
            && Inv(n) && GenerationsOk(n) && w.crew.next <= n.crew.next && w.generations <= n.generations
            && forall h :: h in n.crew.running && h < w.crew.next ==> h in w.crew.running && n.crew.running[h] == w.crew.running[h]
  {
    if actions != [] {
      var before := Run(w, actions[..|actions| - 1]);
      RunTasks(w, actions[..|actions| - 1]);
      hide Inv, Next, GenerationsOk;
      NextKeeps(before, actions[|actions| - 1]);
      NextGenerations(before, actions[|actions| - 1]);
      NextTasks(before, actions[|actions| - 1]);
    }
  }

  lemma TakenNext(w: World, action: Action, key: Key)
    ensures var n := Next(w, action);
            key in n.records ==> (key in w.records && n.records[key] == w.records[key]) || n.records[key].generation == w.generations
  {
    hide Meets, Staffed, Follows;
  }

  /** A key that was free is only ever taken again with a later generation. */
  lemma {:induction false} TakenLater(w: World, actions: seq<Action>, key: Key)
    requires Inv(w) && GenerationsOk(w) && key !in w.records
    ensures key in Run(w, actions).records ==> Run(w, actions).records[key].generation >= w.generations
  {
    if actions != [] {
      var front, last := actions[..|actions| - 1], actions[|actions| - 1];
      TakenLater(w, front, key);
      RunTasks(w, front);
      TakenNext(Run(w, front), last, key);
      hide Inv, GenerationsOk, Next;
    }
  }

  lemma {:induction false} RunJoins(w: World, a: seq<Action>, b: seq<Action>)
    ensures Run(w, a + b) == Run(Run(w, a), b)
  {
    if b == [] {
      assert a + b == a;
    } else {
      RunJoins(w, a, b[..|b| - 1]);
      assert (a + b)[..|a + b| - 1] == a + b[..|b| - 1];
    }
  }

  lemma RunningStands(c: Crew, records: Records)
    requires CrewOk(c) && Within(records, Served(c)) && !SomeGone(records, Served(c))
    ensures forall h :: h in c.running ==> c.running[h].key in records && records[c.running[h].key] == c.running[h]
  {
  }

  /** A task whose record was closed at any moment is no longer running once the loop has settled, also if the
      same origin was opened again under the same id before the loop looked. */
  lemma ClosedIsStopped(w: World, a: seq<Action>, b: seq<Action>, handle: nat)
    requires Inv(w) && GenerationsOk(w) && handle in w.crew.running
    requires w.crew.running[handle].key !in Run(w, a).records
    requires var n := Run(w, a + b); n.loop.Parked? && Still(n) && !n.failed
    ensures handle !in Run(w, a + b).crew.running
  {
    var r, mid, n := w.crew.running[handle], Run(w, a), Run(w, a + b);
    RunJoins(w, a, b);
    RunTasks(w, a);
    RunTasks(mid, b);
    TakenLater(mid, b, r.key);
    assert handle < w.crew.next;
    assert r.key in n.records ==> n.records[r.key].generation > r.generation;
    RunningStands(n.crew, n.records);
  }

  // ---- a close that fails halfway -----------------------------------------

  lemma OneSupervised(key: Key, record: Record, loaded: Records, crew: Crew)
    requires record.key == key && record.generation == 0 && loaded == map[key := record]
    requires crew == Crew(map[key := Task(record, 0)], map[0 := record], 1)
    ensures Staffed(crew, loaded) && Follows(Crew(map[], map[], 0), crew, loaded)
  {
  }

  lemma ThreeSteps(w: World, a: Action, b: Action, c: Action)
    ensures Run(w, [a, b, c]) == Next(Next(Next(w, a), b), c)
  {
    hide Next;
    RunOne(w, [], a);
    RunOne(w, [a], b);
    RunOne(w, [a, b], c);
    assert [] + [a] == [a] && [a] + [b] == [a, b] && [a, b] + [c] == [a, b, c];
  }

  /** A close whose file will not go takes the record away but wakes nobody: the loop waits, nothing is on its
      way, and a connection nothing asks for is still held. */
  lemma FailedCloseGoesUnseen() returns (actions: seq<Action>, loaded: Records)
    ensures RecordsOk(loaded)
    ensures var w := Run(Booted(loaded), actions);
            w.loop.Parked? && !w.permit && w.inFlight == 0 && w.records == map[] && w.crew.running != map[]
  {
    var key := Key(1, "a");
    var record := Record(key, "https://one", 0);
    loaded := map[key := record];
    var crew := Crew(map[key := Task(record, 0)], map[0 := record], 1);
    actions := [List, Reconcile(crew), CloseFails(key)];
    OneSupervised(key, record, loaded, crew);
    ThreeSteps(Booted(loaded), List, Reconcile(crew), CloseFails(key));
    hide Run, Staffed, Follows;
    var listed := Next(Booted(loaded), List);
    assert listed.loop == Listed(loaded) && listed.crew == Crew(map[], map[], 0);
    var settled := Next(listed, Reconcile(crew));
    assert settled == listed.(crew := crew, loop := Parked);
    assert 0 in crew.running;
    assert loaded - {key} == map[];
  }

  lemma RunOne(w: World, actions: seq<Action>, next: Action)
    ensures Run(w, actions + [next]) == Next(Run(w, actions), next)
  {
    assert (actions + [next])[..|actions|] == actions;
  }
}
