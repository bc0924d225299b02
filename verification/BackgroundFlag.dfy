/** A task record and the flag that makes a boot look for it live on two pools, a tenant's and the
    control pool, which roll back independently. */
module BackgroundFlag {
  import opened Wrappers
  import opened Pools
  import opened Tasks

  type CallId = nat

  /** How far a request that enqueues one record has got: flag the tenant, write the record, then anchor
      the tenant's pool and the control pool before it is answered. */
  datatype Phase =
    | Marking
    | FlagWritten
    | AnchoringFlag(mark: nat)
    | Flagged
    | RecordWritten
    | AnchoringRecord(mark: nat)
    | RecordAnchored
    | AnchoringControl(mark: nat)
    | Ended

  datatype Call = Call(record: Key, phase: Phase)

  /** `control` is the set of tenants flagged; `acked` the records whose request was answered. */
  datatype State = State(
    control: Pool<set<Tenant>>,
    tenants: map<Tenant, Pool<set<Key>>>,
    up: bool,
    calls: map<CallId, Call>,
    acked: set<Key>)

  datatype Action =
    | Start(c: CallId, record: Key)
    | ReadFlag(c: CallId)
    | AnchorFlag(c: CallId)
    | FlagDurable(c: CallId)
    | WriteRecord(c: CallId)
    | AnchorRecord(c: CallId)
    | RecordDurable(c: CallId)
    | AnchorControl(c: CallId)
    | Answer(c: CallId)
    | Forget(record: Key)
    | Crash
    | Reboot(control: nat, tenants: map<Tenant, nat>)

  function Init(): State {
    State(Pool([{}], 0), map[], false, map[], {})
  }

  function PoolOf(s: State, t: Tenant): Pool<set<Key>> {
    if t in s.tenants then s.tenants[t] else Pool([{}], 0)
  }

  function InPhase(s: State, c: CallId, phase: Phase): State
    requires c in s.calls
  {
    s.(calls := s.calls[c := s.calls[c].(phase := phase)])
  }

  function WithTenant(s: State, t: Tenant, p: Pool<set<Key>>): State {
    s.(tenants := s.tenants[t := p])
  }

  predicate PoolsThere(s: State) {
    s.control.history != [] && forall t :: t in s.tenants ==> s.tenants[t].history != []
  }

  function Step(s: State, a: Action): Option<State>
    requires PoolsThere(s)
  {
    match a
    case Start(c, record) =>
      if !s.up || c in s.calls then None else Some(s.(calls := s.calls[c := Call(record, Marking)]))
    case Forget(record) =>
      if !s.up then None
      else
        // Whatever request was still vouching for the record no longer does.
        var calls := map c | c in s.calls :: if s.calls[c].record == record then s.calls[c].(phase := Ended) else s.calls[c];
        Some(WithTenant(s, record.tenant, Changed(PoolOf(s, record.tenant), Current(PoolOf(s, record.tenant)) - {record}))
               .(calls := calls, acked := s.acked - {record}))
    case Crash => if !s.up then None else Some(s.(up := false, calls := map[]))
    case Reboot(control, tenants) =>
      if s.up || !Revealable(s.control, control) || tenants.Keys != s.tenants.Keys
         || exists t :: t in s.tenants && !Revealable(s.tenants[t], tenants[t]) then None
      else Some(s.(up := true, control := Changed(s.control, s.control.history[control]),
                   tenants := map t | t in s.tenants :: Changed(s.tenants[t], s.tenants[t].history[tenants[t]])))
    case _ => if !s.up || a.c !in s.calls then None else CallStep(s, a)
  }

  function CallStep(s: State, a: Action): Option<State>
    requires PoolsThere(s) && !a.Forget? && !a.Crash? && !a.Reboot? && a.c in s.calls
  {
    var record := s.calls[a.c].record;
    var t := record.tenant;
    match (a, s.calls[a.c].phase)
    case (ReadFlag(c), Marking) =>
      // Already flagged: nothing to write, and nothing to anchor.
      if t in Current(s.control) then Some(InPhase(s, c, Flagged))
      else Some(InPhase(s.(control := Changed(s.control, Current(s.control) + {t})), c, FlagWritten))
    case (AnchorFlag(c), FlagWritten) => Some(InPhase(s, c, AnchoringFlag(|s.control.history| - 1)))
    case (FlagDurable(c), AnchoringFlag(mark)) => Some(InPhase(s.(control := Anchored(s.control, mark)), c, Flagged))
    case (WriteRecord(c), Flagged) =>
      Some(InPhase(WithTenant(s, t, Changed(PoolOf(s, t), Current(PoolOf(s, t)) + {record})), c, RecordWritten))
    case (AnchorRecord(c), RecordWritten) => Some(InPhase(s, c, AnchoringRecord(|PoolOf(s, t).history| - 1)))
    case (RecordDurable(c), AnchoringRecord(mark)) =>
      Some(InPhase(WithTenant(s, t, Anchored(PoolOf(s, t), mark)), c, RecordAnchored))
    case (AnchorControl(c), RecordAnchored) => Some(InPhase(s, c, AnchoringControl(|s.control.history| - 1)))
    case (Answer(c), AnchoringControl(mark)) =>
      Some(InPhase(s.(control := Anchored(s.control, mark), acked := s.acked + {record}), c, Ended))
    case _ => None
  }

  // ---- the invariant ------------------------------------------------------

  predicate FlaggedSince(s: State, from: nat, t: Tenant) {
    forall i :: from <= i < |s.control.history| ==> t in s.control.history[i]
  }

  predicate PresentSince(s: State, from: nat, record: Key) {
    var p := PoolOf(s, record.tenant);
    forall i :: from <= i < |p.history| ==> record in p.history[i]
  }

  /** Every state a crash can bring back has the flag. */
  predicate FlagSafe(s: State, t: Tenant) {
    FlaggedSince(s, s.control.floor, t)
  }

  predicate RecordSafe(s: State, record: Key) {
    PresentSince(s, PoolOf(s, record.tenant).floor, record)
  }

  predicate CallOk(s: State, call: Call)
    requires PoolsThere(s)
  {
    var t := call.record.tenant;
    match call.phase
    case Marking => true
    case FlagWritten => t in Current(s.control)
    case AnchoringFlag(mark) => mark < |s.control.history| && FlaggedSince(s, mark, t)
    case Flagged => t in Current(s.control)
    case RecordWritten => t in Current(s.control) && call.record in Current(PoolOf(s, t))
    case AnchoringRecord(mark) => t in Current(s.control) && mark < |PoolOf(s, t).history| && PresentSince(s, mark, call.record)
    case RecordAnchored => t in Current(s.control) && RecordSafe(s, call.record)
    case AnchoringControl(mark) => mark < |s.control.history| && FlaggedSince(s, mark, t) && RecordSafe(s, call.record)
    case Ended => true
  }

  predicate FloorsOk(s: State) {
    s.control.floor < |s.control.history| && forall t :: t in s.tenants ==> s.tenants[t].floor < |s.tenants[t].history|
  }

  predicate Inv(s: State)
    ensures Inv(s) ==> PoolsThere(s)
  {
    && FloorsOk(s) && PoolsThere(s)
    && (forall c :: c in s.calls ==> CallOk(s, s.calls[c]))
    && (forall record :: record in s.acked ==> FlagSafe(s, record.tenant) && RecordSafe(s, record))
    && (!s.up ==> s.calls == map[])
  }

  // ---- every step keeps it ------------------------------------------------

  /** A pool that has moved forward by at most one state, its floor not falling. */
  predicate Forward<T(==)>(p: Pool<T>, p': Pool<T>) {
    && p.history <= p'.history && |p'.history| <= |p.history| + 1
    && p.floor <= p'.floor < |p'.history|
  }

  /** Flags are only ever added, and this record has not been taken away. */
  predicate Keeps(s: State, s': State, record: Key)
    requires PoolsThere(s) && PoolsThere(s')
  {
    var p, p' := PoolOf(s, record.tenant), PoolOf(s', record.tenant);
    && Forward(s.control, s'.control) && Forward(p, p')
    && (record.tenant in Current(s.control) ==> record.tenant in Current(s'.control))
    && (record in Current(p) ==> record in Current(p'))
  }

  lemma CallKept(s: State, s': State, call: Call)
    requires PoolsThere(s) && PoolsThere(s') && FloorsOk(s) && Keeps(s, s', call.record) && CallOk(s, call)
    ensures CallOk(s', call)
  {
  }

  lemma SafeKept(s: State, s': State, record: Key)
    requires PoolsThere(s) && PoolsThere(s') && FloorsOk(s) && Keeps(s, s', record)
    ensures FlagSafe(s, record.tenant) ==> FlagSafe(s', record.tenant)
    ensures RecordSafe(s, record) ==> RecordSafe(s', record)
  {
  }

  lemma ControlForward(s: State, s': State, record: Key)
    requires PoolsThere(s) && FloorsOk(s) && s'.tenants == s.tenants
    requires Forward(s.control, s'.control) && Current(s.control) <= Current(s'.control)
    ensures PoolsThere(s') && FloorsOk(s') && Keeps(s, s', record)
  {
  }

  lemma TenantForward(s: State, s': State, t: Tenant, record: Key)
    requires PoolsThere(s) && FloorsOk(s) && s'.control == s.control && s'.tenants.Keys == s.tenants.Keys + {t}
    requires forall u :: u in s.tenants && u != t ==> s'.tenants[u] == s.tenants[u]
    requires Forward(PoolOf(s, t), s'.tenants[t]) && Current(PoolOf(s, t)) <= Current(s'.tenants[t])
    ensures PoolsThere(s') && FloorsOk(s') && Keeps(s, s', record)
  {
  }

  lemma CallForward(s: State, a: Action, record: Key)
    requires FloorsOk(s) && PoolsThere(s) && !a.Forget? && !a.Crash? && !a.Reboot? && !a.Start? && a.c in s.calls
    requires CallStep(s, a).Some? && CallOk(s, s.calls[a.c])
    ensures var s' := CallStep(s, a).value; PoolsThere(s') && FloorsOk(s') && Keeps(s, s', record)
  {
    hide FlaggedSince, PresentSince, Keeps, FloorsOk;
    var s' := CallStep(s, a).value;
    var t := s.calls[a.c].record.tenant;
    if a.WriteRecord? || a.RecordDurable? {
      assert PoolOf(s, t).floor < |PoolOf(s, t).history| by { FloorOf(s, t); }
      TenantForward(s, s', t, record);
    } else {
      assert s.control.floor < |s.control.history| by { FloorOf(s, t); }
      ControlForward(s, s', record);
    }
  }

  lemma FloorOf(s: State, t: Tenant)
    requires FloorsOk(s)
    ensures s.control.floor < |s.control.history| && PoolOf(s, t).floor < |PoolOf(s, t).history|
  {
  }

  lemma ForgetForward(s: State, forgotten: Key, record: Key)
    requires FloorsOk(s) && PoolsThere(s) && Step(s, Forget(forgotten)).Some? && record != forgotten
    ensures var s' := Step(s, Forget(forgotten)).value; PoolsThere(s') && FloorsOk(s') && Keeps(s, s', record)
  {
  }

  lemma StepForward(s: State, a: Action, record: Key)
    requires Inv(s) && Step(s, a).Some? && !a.Crash? && !a.Reboot? && a != Forget(record)
    ensures PoolsThere(Step(s, a).value) && FloorsOk(Step(s, a).value) && Keeps(s, Step(s, a).value, record)
  {
    if a.Forget? {
      ForgetForward(s, a.record, record);
    } else if !a.Start? {
      assert CallOk(s, s.calls[a.c]);
      hide CallOk, CallStep, Keeps, FloorsOk, PoolsThere;
      CallForward(s, a, record);
    }
  }

  lemma OwnCall(s: State, a: Action)
    requires Inv(s) && !a.Forget? && !a.Crash? && !a.Reboot? && !a.Start? && a.c in s.calls && CallStep(s, a).Some?
    ensures var s' := CallStep(s, a).value; PoolsThere(s') && CallOk(s', s'.calls[a.c])
    ensures a.Answer? ==> FlagSafe(CallStep(s, a).value, s.calls[a.c].record.tenant) && RecordSafe(CallStep(s, a).value, s.calls[a.c].record)
  {
    assert CallOk(s, s.calls[a.c]);
  }

  lemma LiveStepKeeps(s: State, a: Action)
    requires Inv(s) && Step(s, a).Some? && !a.Crash? && !a.Reboot?
    ensures Inv(Step(s, a).value)
  {
    var s' := Step(s, a).value;
    StepForward(s, a, Key(0, if a == Forget(Key(0, "")) then "other" else ""));
    hide CallOk, FloorsOk, FlagSafe, RecordSafe, Keeps;
    forall c | c in s'.calls ensures CallOk(s', s'.calls[c]) {
      if !a.Start? && !a.Forget? && c == a.c {
        OwnCall(s, a);
      } else if s'.calls[c].phase.Marking? || s'.calls[c].phase.Ended? {
        EasyCall(s', s'.calls[c]);
      } else {
        StepForward(s, a, s.calls[c].record);
        CallKept(s, s', s.calls[c]);
      }
    }
    forall record | record in s'.acked ensures FlagSafe(s', record.tenant) && RecordSafe(s', record) {
      if record in s.acked {
        StepForward(s, a, record);
        SafeKept(s, s', record);
      } else {
        OwnCall(s, a);
      }
    }
  }

  lemma EasyCall(s: State, call: Call)
    requires PoolsThere(s) && (call.phase.Marking? || call.phase.Ended?)
    ensures CallOk(s, call)
  {
  }

  lemma RebootKeeps(s: State, control: nat, tenants: map<Tenant, nat>)
    requires Inv(s) && Step(s, Reboot(control, tenants)).Some?
    ensures Inv(Step(s, Reboot(control, tenants)).value)
  {
  }

  lemma StepKeeps(s: State, a: Action)
    requires Inv(s) && Step(s, a).Some?
    ensures Inv(Step(s, a).value)
  {
    match a
    case Reboot(control, tenants) => RebootKeeps(s, control, tenants);
    case Crash =>
    case _ => LiveStepKeeps(s, a);
  }

  ghost predicate Reachable(s: State, actions: seq<Action>)
    decreases |actions|
  {
    if actions == [] then s == Init()
    else exists before :: Reachable(before, actions[..|actions| - 1]) && PoolsThere(before) && Step(before, actions[|actions| - 1]) == Some(s)
  }

  lemma {:induction false} ReachableInv(s: State, actions: seq<Action>)
    requires Reachable(s, actions)
    ensures Inv(s)
    decreases |actions|
  {
    if actions != [] {
      var before :| Reachable(before, actions[..|actions| - 1]) && PoolsThere(before) && Step(before, actions[|actions| - 1]) == Some(s);
      ReachableInv(before, actions[..|actions| - 1]);
      StepKeeps(before, actions[|actions| - 1]);
    }
  }

  /** A boot shown this control state and this state of the tenant's pool has the record on disk and
      does not look for it. */
  predicate Missed(s: State, record: Key, control: nat, i: nat) {
    && Revealable(s.control, control) && record.tenant !in s.control.history[control]
    && Revealable(PoolOf(s, record.tenant), i) && record in PoolOf(s, record.tenant).history[i]
  }

  /** An answered enqueue is in every pair of states the two pools can come back in: the record is there
      and its tenant is flagged, until it is forgotten. */
  lemma AnsweredNeverMissed(s: State, actions: seq<Action>, record: Key, control: nat, i: nat)
    requires Reachable(s, actions) && record in s.acked
    requires Revealable(s.control, control) && Revealable(PoolOf(s, record.tenant), i)
    ensures record.tenant in s.control.history[control] && record in PoolOf(s, record.tenant).history[i]
  {
    ReachableInv(s, actions);
    assert FlagSafe(s, record.tenant) && RecordSafe(s, record);
  }

  /** From this control state on, flags have only been added. */
  predicate GrowsFrom(s: State, m: nat) {
    forall i :: m <= i < |s.control.history| ==> s.control.history[m] <= s.control.history[i]
  }

  /** So they have from the state last anchored, and from each that an anchor in progress will cover. */
  predicate GrowsOk(s: State) {
    && GrowsFrom(s, s.control.floor)
    && forall c :: c in s.calls ==>
         match s.calls[c].phase
         case AnchoringFlag(mark) => GrowsFrom(s, mark)
         case AnchoringControl(mark) => GrowsFrom(s, mark)
         case _ => true
  }

  /** A control pool that moved on by at most a state no smaller than the one in use. */
  lemma GrowsOn(s: State, s': State, m: nat)
    requires s.control.history != [] && m < |s.control.history| && GrowsFrom(s, m)
    requires Forward(s.control, s'.control) && s'.control.history != [] && Current(s.control) <= Current(s'.control)
    ensures GrowsFrom(s', m)
  {
    var h, h' := s.control.history, s'.control.history;
    assert h[m] <= h[|h| - 1];
    forall i | m <= i < |h'| ensures h'[m] <= h'[i] {
      if i < |h| {
        assert h'[i] == h[i] && h'[m] == h[m];
      }
    }
  }

  lemma ControlOnward(s: State, a: Action)
    requires Inv(s) && Step(s, a).Some? && !a.Reboot?
    ensures var s' := Step(s, a).value;
            s'.control.history != [] && Forward(s.control, s'.control) && Current(s.control) <= Current(s'.control)
  {
    hide CallOk, FlagSafe, RecordSafe;
    if !a.Start? && !a.Forget? && !a.Crash? {
      assert CallOk(s, s.calls[a.c]);
      MarksBelow(s, s.calls[a.c]);
    }
  }

  lemma MarksBelow(s: State, call: Call)
    requires PoolsThere(s) && CallOk(s, call)
    ensures match call.phase
            case AnchoringFlag(mark) => mark < |s.control.history|
            case AnchoringControl(mark) => mark < |s.control.history|
            case _ => true
  {
  }

  /** Where the floor can have come from. */
  lemma FloorFrom(s: State, a: Action)
    requires Inv(s) && Step(s, a).Some? && !a.Reboot?
    ensures var floor := Step(s, a).value.control.floor;
            || floor == s.control.floor
            || (!a.Start? && !a.Forget? && !a.Crash? && a.c in s.calls
                && (s.calls[a.c].phase == AnchoringFlag(floor) || s.calls[a.c].phase == AnchoringControl(floor)))
  {
  }

  /** Where an anchor's mark can have come from. */
  lemma MarkFrom(s: State, a: Action, c: CallId)
    requires Inv(s) && Step(s, a).Some? && !a.Reboot? && c in Step(s, a).value.calls
    ensures var phase := Step(s, a).value.calls[c].phase;
            || (c in s.calls && s.calls[c].phase == phase)
            || phase == AnchoringFlag(|s.control.history| - 1) || phase == AnchoringControl(|s.control.history| - 1)
            || (!phase.AnchoringFlag? && !phase.AnchoringControl?)
  {
  }

  lemma LiveGrows(s: State, a: Action)
    requires Inv(s) && GrowsOk(s) && Step(s, a).Some? && !a.Reboot?
    ensures GrowsOk(Step(s, a).value)
  {
    var s' := Step(s, a).value;
    ControlOnward(s, a);
    FloorFrom(s, a);
    var last: nat := |s.control.history| - 1;
    assert GrowsFrom(s, last);
    assert s.control.floor < |s.control.history|;
    forall c | c in s.calls ensures MarkedBelow(s, c) {
      assert CallOk(s, s.calls[c]);
      MarksBelow(s, s.calls[c]);
    }
    hide Step, Inv, Forward, GrowsFrom;
    forall m: nat | m < |s.control.history| && GrowsFrom(s, m) ensures GrowsFrom(s', m) {
      GrowsOn(s, s', m);
    }
    forall c | c in s'.calls
      ensures match s'.calls[c].phase
              case AnchoringFlag(mark) => GrowsFrom(s', mark)
              case AnchoringControl(mark) => GrowsFrom(s', mark)
              case _ => true
    {
      MarkFrom(s, a, c);
      assert c in s.calls ==> MarkedBelow(s, c);
    }
    if s'.control.floor != s.control.floor {
      assert MarkedBelow(s, a.c);
    }
  }

  predicate MarkedBelow(s: State, c: CallId)
    requires c in s.calls
  {
    match s.calls[c].phase
    case AnchoringFlag(mark) => mark < |s.control.history|
    case AnchoringControl(mark) => mark < |s.control.history|
    case _ => true
  }

  lemma RebootGrows(s: State, control: nat, tenants: map<Tenant, nat>)
    requires Inv(s) && GrowsOk(s) && Step(s, Reboot(control, tenants)).Some?
    ensures GrowsOk(Step(s, Reboot(control, tenants)).value)
  {
  }

  lemma {:induction false} ReachableGrows(s: State, actions: seq<Action>)
    requires Reachable(s, actions)
    ensures Inv(s) && GrowsOk(s)
    decreases |actions|
  {
    ReachableInv(s, actions);
    if actions != [] {
      var a := actions[|actions| - 1];
      var before :| Reachable(before, actions[..|actions| - 1]) && PoolsThere(before) && Step(before, a) == Some(s);
      ReachableGrows(before, actions[..|actions| - 1]);
      hide Reachable, Inv, GrowsOk, Step;
      if a.Reboot? {
        RebootGrows(before, a.control, a.tenants);
      } else {
        LiveGrows(before, a);
      }
    }
  }

  /** Every control state a crash can bring back is flagged exactly when the one last anchored is. */
  lemma FlagSafeIffAnchored(s: State, actions: seq<Action>, t: Tenant)
    requires Reachable(s, actions)
    ensures s.control.floor < |s.control.history|
    ensures FlagSafe(s, t) <==> t in s.control.history[s.control.floor]
  {
    ReachableGrows(s, actions);
  }

  /** Before the answer it is not so. In any run, writing a record leaves a pair of states in which a boot would miss
      it exactly when the tenant is not flagged in the control state last anchored. */
  lemma WrittenMissedIffUnanchored(s: State, actions: seq<Action>, c: CallId)
    requires Reachable(s, actions) && PoolsThere(s) && s.up && c in s.calls && s.calls[c].phase.Flagged?
    ensures s.control.floor < |s.control.history| && Step(s, WriteRecord(c)).Some?
    ensures var s' := Step(s, WriteRecord(c)).value;
            var record := s.calls[c].record;
            (exists control, i :: Missed(s', record, control, i)) <==> record.tenant !in s.control.history[s.control.floor]
  {
    ReachableInv(s, actions);
    FlagSafeIffAnchored(s, actions, s.calls[c].record.tenant);
    hide Reachable;
    MissedIffFlagUnsafe(s, c);
  }

  /** One such write, told by every state a crash can bring back. */
  lemma MissedIffFlagUnsafe(s: State, c: CallId)
    requires Inv(s) && s.up && c in s.calls && s.calls[c].phase.Flagged?
    ensures var s' := Step(s, WriteRecord(c)).value;
            var record := s.calls[c].record;
            && Step(s, WriteRecord(c)).Some?
            && ((exists control, i :: Missed(s', record, control, i)) <==> !FlagSafe(s, record.tenant))
  {
    var record := s.calls[c].record;
    var s' := Step(s, WriteRecord(c)).value;
    var p' := PoolOf(s', record.tenant);
    StepForward(s, WriteRecord(c), record);
    if !FlagSafe(s, record.tenant) {
      var control :| s.control.floor <= control < |s.control.history| && record.tenant !in s.control.history[control];
      assert Missed(s', record, control, |p'.history| - 1);
    }
  }

  /** A request that found the tenant unflagged leaves every control state it could crash into flagged;
      one that found it flagged already anchors nothing, and takes the flag as it finds it. */
  lemma FlagSafeOnlyIfAnchored(s: State, a: Action)
    requires Inv(s) && Step(s, a).Some? && (a.FlagDurable? || a.ReadFlag?)
    ensures var t := s.calls[a.c].record.tenant;
            var s' := Step(s, a).value;
            && (a.FlagDurable? ==> FlagSafe(s', t))
            && (a.ReadFlag? && s'.calls[a.c].phase.Flagged? ==> s'.control == s.control && (FlagSafe(s', t) <==> FlagSafe(s, t)))
  {
    assert CallOk(s, s.calls[a.c]);
  }

  /** Once every control state a crash can bring back is flagged, it stays so for good. */
  lemma FlagSafeForGood(s: State, a: Action, t: Tenant)
    requires Inv(s) && Step(s, a).Some? && FlagSafe(s, t)
    ensures FlagSafe(Step(s, a).value, t)
  {
    if !a.Crash? && !a.Reboot? {
      var record := Key(t, if a == Forget(Key(t, "")) then "other" else "");
      StepForward(s, a, record);
      SafeKept(s, Step(s, a).value, record);
    }
  }

  lemma Then(s: State, actions: seq<Action>, a: Action) returns (s': State, longer: seq<Action>)
    requires Reachable(s, actions) && PoolsThere(s) && Step(s, a).Some?
    ensures Some(s') == Step(s, a) && longer == actions + [a] && Reachable(s', longer)
  {
    longer := actions + [a];
    s' := Step(s, a).value;
    assert longer[..|longer| - 1] == actions;
  }

  /** A request under way, its flag written and its record perhaps too. */
  predicate UnderWay(s: State, c: CallId, call: Call) {
    && PoolsThere(s) && s.up && c in s.calls && s.calls[c] == call
    && call.record.tenant in Current(s.control)
    && (call.phase.Flagged? || call.record in Current(PoolOf(s, call.record.tenant)))
  }

  lemma ReadFlagGoes(s: State, c: CallId, record: Key)
    requires PoolsThere(s) && s.up && c in s.calls && s.calls[c] == Call(record, Marking)
    ensures var s' := Step(s, ReadFlag(c));
            && s'.Some? && s'.value.acked == s.acked && PoolsThere(s'.value)
            && if record.tenant in Current(s.control) then UnderWay(s'.value, c, Call(record, Flagged))
               else && s'.value.up && c in s'.value.calls && s'.value.calls[c] == Call(record, FlagWritten)
                    && record.tenant in Current(s'.value.control)
  {
  }

  lemma FlagGoes(s: State, c: CallId, record: Key)
    requires PoolsThere(s) && s.up && c in s.calls && s.calls[c] == Call(record, FlagWritten) && record.tenant in Current(s.control)
    ensures var one := Step(s, AnchorFlag(c));
            && one.Some? && PoolsThere(one.value)
            && var two := Step(one.value, FlagDurable(c));
            && two.Some? && two.value.acked == s.acked && UnderWay(two.value, c, Call(record, Flagged))
  {
  }

  /** From a flag that is there to a record that is anchored. */
  lemma RecordGoes(s: State, c: CallId, record: Key)
    requires UnderWay(s, c, Call(record, Flagged))
    ensures var one := Step(s, WriteRecord(c));
            && one.Some? && PoolsThere(one.value)
            && var two := Step(one.value, AnchorRecord(c));
            && two.Some? && PoolsThere(two.value)
            && var three := Step(two.value, RecordDurable(c));
            && three.Some? && three.value.acked == s.acked && UnderWay(three.value, c, Call(record, RecordAnchored))
  {
  }

  lemma ControlGoes(s: State, c: CallId, record: Key)
    requires UnderWay(s, c, Call(record, RecordAnchored))
    ensures var one := Step(s, AnchorControl(c));
            && one.Some? && PoolsThere(one.value)
            && var two := Step(one.value, Answer(c));
            && two.Some? && two.value.acked == s.acked + {record} && UnderWay(two.value, c, Call(record, Ended))
  {
  }

  lemma FlagFirst(s: State, actions: seq<Action>, c: CallId, record: Key) returns (s': State, all: seq<Action>)
    requires Reachable(s, actions) && PoolsThere(s) && s.up && c !in s.calls
    ensures all == actions + if record.tenant in Current(s.control) then [Start(c, record), ReadFlag(c)]
                             else [Start(c, record), ReadFlag(c), AnchorFlag(c), FlagDurable(c)]
    ensures Reachable(s', all) && s'.acked == s.acked && UnderWay(s', c, Call(record, Flagged))
  {
    hide Reachable, CallStep, UnderWay;
    s', all := Then(s, actions, Start(c, record));
    ReadFlagGoes(s', c, record);
    hide Step;
    s', all := Then(s', all, ReadFlag(c));
    assert all == actions + [Start(c, record), ReadFlag(c)];
    if record.tenant !in Current(s.control) {
      FlagGoes(s', c, record);
      s', all := Then(s', all, AnchorFlag(c));
      s', all := Then(s', all, FlagDurable(c));
      assert all == actions + ([Start(c, record), ReadFlag(c)] + [AnchorFlag(c), FlagDurable(c)]);
    }
  }

  lemma RecordNext(s: State, actions: seq<Action>, c: CallId, record: Key) returns (s': State, all: seq<Action>)
    requires Reachable(s, actions) && UnderWay(s, c, Call(record, Flagged))
    ensures all == actions + [WriteRecord(c), AnchorRecord(c), RecordDurable(c), AnchorControl(c), Answer(c)]
    ensures Reachable(s', all) && s'.acked == s.acked + {record} && UnderWay(s', c, Call(record, Ended))
  {
    hide Reachable, Step, UnderWay;
    RecordGoes(s, c, record);
    UnderWayThere(s, c, Call(record, Flagged));
    s', all := Then(s, actions, WriteRecord(c));
    s', all := Then(s', all, AnchorRecord(c));
    s', all := Then(s', all, RecordDurable(c));
    ControlGoes(s', c, record);
    UnderWayThere(s', c, Call(record, RecordAnchored));
    s', all := Then(s', all, AnchorControl(c));
    s', all := Then(s', all, Answer(c));
  }

  /** A request that nothing interrupts is answered: from every reachable state its steps can all be taken, with the
      flag written and anchored first if it is not there, and its record is then among those answered. */
  lemma RequestAnswered(s: State, actions: seq<Action>, c: CallId, record: Key) returns (s': State, flagged: seq<Action>, all: seq<Action>)
    requires Reachable(s, actions) && s.up && c !in s.calls
    ensures PoolsThere(s)
    ensures flagged == actions + if record.tenant in Current(s.control) then [Start(c, record), ReadFlag(c)]
                                 else [Start(c, record), ReadFlag(c), AnchorFlag(c), FlagDurable(c)]
    ensures all == flagged + [WriteRecord(c), AnchorRecord(c), RecordDurable(c), AnchorControl(c), Answer(c)]
    ensures Reachable(s', all) && s'.acked == s.acked + {record} && UnderWay(s', c, Call(record, Ended))
  {
    ReachableInv(s, actions);
    hide Reachable, UnderWay, CallOk, FlagSafe, RecordSafe;
    s', flagged := FlagFirst(s, actions, c, record);
    s', all := RecordNext(s', flagged, c, record);
  }

  lemma UnderWayThere(s: State, c: CallId, call: Call)
    requires UnderWay(s, c, call)
    ensures PoolsThere(s)
  {
  }

  /** A crash after a tenant's flag was written and before its anchor returned, and a restart that still
      shows the flag. */
  lemma FlagLeftUnanchored() returns (s: State, actions: seq<Action>)
    ensures Reachable(s, actions) && s == State(Pool([{}, {}, {1}, {1}], 0), map[], true, map[], {})
  {
    hide Reachable;
    s, actions := Then(Init(), [], Reboot(0, map[]));
    assert s == State(Pool([{}, {}], 0), map[], true, map[], {});
    s, actions := Then(s, actions, Start(0, Key(1, "a")));
    s, actions := Then(s, actions, ReadFlag(0));
    assert {} + {1} == {1};
    assert s == State(Pool([{}, {}, {1}], 0), map[], true, map[0 := Call(Key(1, "a"), FlagWritten)], {});
    s, actions := Then(s, actions, Crash);
    s, actions := Then(s, actions, Reboot(2, map[]));
  }

  /** The next request finds that flag and writes its record. */
  lemma RecordUnderUnanchoredFlag() returns (s: State, actions: seq<Action>)
    ensures Reachable(s, actions)
    ensures s == State(Pool([{}, {}, {1}, {1}], 0), map[1 := Pool([{}, {Key(1, "b")}], 0)], true,
                       map[1 := Call(Key(1, "b"), RecordWritten)], {})
  {
    hide Reachable;
    s, actions := FlagLeftUnanchored();
    s, actions := Then(s, actions, Start(1, Key(1, "b")));
    s, actions := Then(s, actions, ReadFlag(1));
    s, actions := Then(s, actions, WriteRecord(1));
    assert {} + {Key(1, "b")} == {Key(1, "b")};
    assert PoolOf(s, 1) == Pool([{}, {Key(1, "b")}], 0);
    assert s.calls == map[1 := Call(Key(1, "b"), RecordWritten)];
  }

  /** Its record is anchored; a crash before the control pool is anchored too can leave the record and
      take the flag away. */
  lemma UnansweredMissedHappens() returns (s: State, actions: seq<Action>)
    ensures Reachable(s, actions) && s.tenants.Keys == {1} && RecordSafe(s, Key(1, "b")) && Missed(s, Key(1, "b"), 0, 1)
  {
    hide Reachable;
    s, actions := RecordUnderUnanchoredFlag();
    s, actions := Then(s, actions, AnchorRecord(1));
    s, actions := Then(s, actions, RecordDurable(1));
    assert PoolOf(s, 1) == Pool([{}, {Key(1, "b")}], 1);
  }
}
