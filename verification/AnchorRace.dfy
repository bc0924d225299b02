/** Any number of enclaves on one pool's chain at once: started and killed at will by the host, with
    their PUTs landing whenever they land. */
module AnchorRace {
  import opened Wrappers
  import opened Anchors
  import opened Roots

  type EnclaveId = nat

  datatype Phase =
    | Claiming(number: nat)
    | Claimed(number: nat, stored: bool)
    | Idle
    | Cleared(anchor: Anchor<Digest>)
    | Answered(anchor: Anchor<Digest>, stored: bool)

  /** `late` counts the anchors that became the retained one after a newer generation existed. */
  datatype Enclave = Enclave(alive: bool, generation: Option<nat>, newest: Newest, phase: Phase, late: nat)

  /** A generation's body is a function of its number alone. `chain` records history: the anchors in the order they
      were retained. */
  datatype State = State(
    id: PoolIdentity,
    anchors: Bucket<nat, Anchor<Digest>>,
    generations: Bucket<nat, nat>,
    enclaves: map<EnclaveId, Enclave>,
    nonces: set<bytes>,
    chain: seq<Anchor<Digest>>)

  datatype Action =
    | Start(e: EnclaveId, number: nat)
    | PutClaim(e: EnclaveId)
    | ReadClaim(e: EnclaveId, next: nat)
    | Open(e: EnclaveId, found: nat)
    | Genesis(e: EnclaveId, guid: nat, txg: nat, nonce: bytes)
    | Clear(e: EnclaveId, guid: nat, txg: nat, nonce: bytes)
    | PutLands(e: EnclaveId)
    | ReadBack(e: EnclaveId)
    | Crash(e: EnclaveId)
    | HideAnchor(number: nat)
    | HideGeneration(number: nat)

  function Init(id: PoolIdentity): State {
    State(id, map[], map[], map[], {}, [])
  }

  function Set(s: State, e: EnclaveId, enclave: Enclave): State {
    s.(enclaves := s.enclaves[e := enclave])
  }

  /** Whether the fence holds this enclave back: a generation after its own is retained. */
  predicate Superseded(s: State, enclave: Enclave) {
    enclave.generation.Some? && Retained(s.generations, enclave.generation.value + 1).Some?
  }

  /** A number the search for the newest generation can lead to: the one after a generation it found. */
  predicate Claimable(s: State, number: nat) {
    number > 0 ==> Retained(s.generations, number - 1).Some?
  }

  function Step(s: State, a: Action): Option<State> {
    match a
    case HideAnchor(number) => Some(s.(anchors := Hide(s.anchors, number)))
    case HideGeneration(number) => Some(s.(generations := Hide(s.generations, number)))
    case Start(e, number) =>
      if e in s.enclaves || !Claimable(s, number) then None
      else Some(Set(s, e, Enclave(true, None, Unopened, Claiming(number), 0)))
    case PutLands(e) =>
      // A PUT already sent may land after its sender is gone.
      if e !in s.enclaves || !s.enclaves[e].phase.Cleared? then None else Some(Landing(s, e))
    case PutClaim(e) =>
      if e !in s.enclaves || !s.enclaves[e].phase.Claiming? then None else Some(ClaimLanding(s, e))
    case _ =>
      if a.e !in s.enclaves || !s.enclaves[a.e].alive then None else LiveStep(s, a)
  }

  function LiveStep(s: State, a: Action): Option<State>
    requires !a.HideAnchor? && !a.HideGeneration? && a.e in s.enclaves
  {
    var me := s.enclaves[a.e];
    match (a, me.phase)
    case (ReadClaim(e, next), Claimed(number, stored)) =>
      if stored && Retained(s.generations, number) == Some(number) then
        Some(Set(s, e, me.(generation := Some(number), phase := Idle)))
      else if Claimable(s, next) then Some(Set(s, e, me.(phase := Claiming(next))))
      else None
    case (Open(e, found), Idle) =>
      if me.generation.None? || me.newest != Unopened || Retained(s.anchors, found).None? then None
      else Some(Set(s, e, me.(newest := At(Retained(s.anchors, found).value))))
    case (Genesis(e, guid, txg, nonce), Idle) =>
      if me.generation.None? || me.newest != Unopened || nonce in s.nonces then None
      else Some(Sealing(s, e, Anchor(0, Zero, s.id, guid, txg, nonce)))
    case (Clear(e, guid, txg, nonce), Idle) =>
      if me.generation.None? || !me.newest.At? || nonce in s.nonces then None
      else if Superseded(s, me) then Some(Set(s, e, me.(newest := Stopped)).(nonces := s.nonces + {nonce}))
      else Some(Sealing(s, e, Anchor(me.newest.anchor.num + 1, Of(me.newest.anchor), s.id, guid, txg, nonce)))
    case (ReadBack(e), Answered(anchor, stored)) =>
      if stored && Retained(s.anchors, anchor.num) == Some(anchor) then
        Some(Set(s, e, me.(newest := At(anchor), phase := Idle)))
      else Some(Set(s, e, me.(newest := Stopped, phase := Idle)))
    case (Crash(e), _) => Some(Set(s, e, me.(alive := false)))
    case _ => None
  }

  function Sealing(s: State, e: EnclaveId, anchor: Anchor<Digest>): State
    requires e in s.enclaves
  {
    Set(s, e, s.enclaves[e].(phase := Cleared(anchor))).(nonces := s.nonces + {anchor.nonce})
  }

  function Landing(s: State, e: EnclaveId): State
    requires e in s.enclaves && s.enclaves[e].phase.Cleared?
  {
    var me := s.enclaves[e];
    var anchor := me.phase.anchor;
    var won := Retained(s.anchors, anchor.num).None?;
    var late := if won && anchor.num > 0 && Superseded(s, me) then 1 else 0;
    Set(s, e, me.(phase := Answered(anchor, PutSucceeds(s.anchors, anchor.num)), late := me.late + late))
      .(anchors := Put(s.anchors, anchor.num, anchor),
        chain := if won then s.chain + [anchor] else s.chain)
  }

  function ClaimLanding(s: State, e: EnclaveId): State
    requires e in s.enclaves && s.enclaves[e].phase.Claiming?
  {
    var me := s.enclaves[e];
    var number := me.phase.number;
    var stored := PutSucceeds(s.generations, number);
    Set(s, e, me.(phase := Claimed(number, stored)))
      .(generations := Put(s.generations, number, number))
  }

  function Run(id: PoolIdentity, actions: seq<Action>): Option<State> {
    if actions == [] then Some(Init(id))
    else
      var before := Run(id, actions[..|actions| - 1]);
      if before.None? then None else Step(before.value, actions[|actions| - 1])
  }

  // ---- the chain ----------------------------------------------------------

  /** The retained anchors are exactly numbers 0 up to the tip, each naming the one before. */
  ghost predicate ChainShape(s: State) {
    && (forall n: nat :: Retained(s.anchors, n) == if n < |s.chain| then Some(s.chain[n]) else None)
    && (forall n :: 0 <= n < |s.chain| ==> s.chain[n].num == n && s.chain[n].id == s.id)
    && (s.chain != [] ==> s.chain[0].prev == Zero)
    && (forall m, n :: 0 <= m < |s.chain| && 0 <= n < |s.chain| && n == m + 1 ==> s.chain[n].prev == Of(s.chain[m]))
  }

  predicate OnChain(s: State, anchor: Anchor<Digest>) {
    anchor.num < |s.chain| && s.chain[anchor.num] == anchor
  }

  /** An anchor some enclave has sealed is the first, or names a retained one. */
  predicate Follows(s: State, anchor: Anchor<Digest>) {
    && anchor.id == s.id
    && if anchor.num == 0 then anchor.prev == Zero
       else anchor.num <= |s.chain| && anchor.prev == Of(s.chain[anchor.num - 1])
  }

  predicate EnclaveOk(s: State, me: Enclave) {
    && (me.newest.At? ==> OnChain(s, me.newest.anchor))
    && (me.phase.Cleared? ==> Follows(s, me.phase.anchor))
    && (me.late + (if me.phase.Cleared? && me.phase.anchor.num > 0 then 1 else 0) <= 1 || !Superseded(s, me))
    && (!Superseded(s, me) ==> me.late == 0)
    && (me.phase.Claiming? || me.phase.Claimed? ==> me.generation.None?)
  }

  ghost predicate Inv(s: State) {
    ChainShape(s) && forall e :: e in s.enclaves ==> EnclaveOk(s, s.enclaves[e])
  }

  /** What a step that touches one enclave leaves true of the others. */
  lemma OthersKept(s: State, s': State, e: EnclaveId)
    requires Inv(s) && s'.id == s.id && s.chain <= s'.chain
    requires s'.generations == s.generations
    requires s'.enclaves.Keys == s.enclaves.Keys + {e}
    requires forall o :: o in s.enclaves && o != e ==> s'.enclaves[o] == s.enclaves[o]
    requires ChainShape(s') && EnclaveOk(s', s'.enclaves[e])
    ensures Inv(s')
  {
  }

  lemma LandingChain(s: State, e: EnclaveId)
    requires ChainShape(s) && e in s.enclaves && s.enclaves[e].phase.Cleared? && EnclaveOk(s, s.enclaves[e])
    ensures ChainShape(Landing(s, e))
  {
    var anchor := s.enclaves[e].phase.anchor;
    if Retained(s.anchors, anchor.num).None? {
      assert anchor.num == |s.chain|;
    }
  }

  lemma LandingKeeps(s: State, e: EnclaveId)
    requires Inv(s) && e in s.enclaves && s.enclaves[e].phase.Cleared?
    ensures Inv(Landing(s, e))
  {
    var s' := Landing(s, e);
    assert EnclaveOk(s, s.enclaves[e]);
    LandingChain(s, e);
    assert EnclaveOk(s', s'.enclaves[e]);
    assert s.chain <= s'.chain;
    hide Inv, EnclaveOk, ChainShape;
    OthersKept(s, s', e);
  }

  lemma ClaimLandingKeeps(s: State, e: EnclaveId)
    requires Inv(s) && e in s.enclaves && s.enclaves[e].phase.Claiming?
    ensures Inv(ClaimLanding(s, e))
  {
  }

  lemma HidingKeeps(s: State, s': State)
    requires Inv(s) && s'.enclaves == s.enclaves && s'.chain == s.chain && s'.id == s.id
    requires forall n: nat :: Retained(s'.anchors, n) == Retained(s.anchors, n)
    requires forall n: nat :: Retained(s'.generations, n) == Retained(s.generations, n)
    ensures Inv(s')
  {
    forall o | o in s'.enclaves ensures EnclaveOk(s', s'.enclaves[o]) {
      assert EnclaveOk(s, s.enclaves[o]);
      if s.enclaves[o].generation.Some? {
        var g: nat := s.enclaves[o].generation.value + 1;
        assert Retained(s'.generations, g) == Retained(s.generations, g);
      }
    }
  }

  lemma LiveStepKeeps(s: State, a: Action)
    requires Inv(s) && !a.HideAnchor? && !a.HideGeneration? && a.e in s.enclaves && LiveStep(s, a).Some?
    ensures Inv(LiveStep(s, a).value)
  {
    var s' := LiveStep(s, a).value;
    assert EnclaveOk(s, s.enclaves[a.e]);
    StepOk(s, a);
    StepChain(s, a);
    hide Inv, EnclaveOk, ChainShape, LiveStep;
    OthersKept(s, s', a.e);
  }

  lemma SameChain(s: State, s': State)
    requires ChainShape(s) && s'.anchors == s.anchors && s'.chain == s.chain && s'.id == s.id
    ensures ChainShape(s')
  {
  }

  lemma StepChain(s: State, a: Action)
    requires ChainShape(s) && !a.HideAnchor? && !a.HideGeneration? && a.e in s.enclaves && LiveStep(s, a).Some?
    ensures var s' := LiveStep(s, a).value;
            && ChainShape(s') && s'.id == s.id && s.chain <= s'.chain && s'.generations == s.generations
            && s'.enclaves.Keys == s.enclaves.Keys + {a.e}
            && (forall o :: o in s.enclaves && o != a.e ==> s'.enclaves[o] == s.enclaves[o])
  {
    hide Retained, Superseded, ChainShape;
    SameChain(s, LiveStep(s, a).value);
  }

  lemma SealOk(s: State, a: Action)
    requires ChainShape(s) && (a.Clear? || a.Genesis?) && a.e in s.enclaves && LiveStep(s, a).Some?
    requires EnclaveOk(s, s.enclaves[a.e])
    ensures EnclaveOk(LiveStep(s, a).value, LiveStep(s, a).value.enclaves[a.e])
  {
    hide Retained;
  }

  lemma OtherOk(s: State, a: Action)
    requires ChainShape(s) && !a.HideAnchor? && !a.HideGeneration? && !a.Clear? && !a.Genesis?
    requires a.e in s.enclaves && LiveStep(s, a).Some? && EnclaveOk(s, s.enclaves[a.e])
    ensures EnclaveOk(LiveStep(s, a).value, LiveStep(s, a).value.enclaves[a.e])
  {
    hide Retained;
  }

  lemma StepOk(s: State, a: Action)
    requires ChainShape(s) && !a.HideAnchor? && !a.HideGeneration? && a.e in s.enclaves && LiveStep(s, a).Some?
    requires EnclaveOk(s, s.enclaves[a.e])
    ensures EnclaveOk(LiveStep(s, a).value, LiveStep(s, a).value.enclaves[a.e])
  {
    hide ChainShape, LiveStep, EnclaveOk;
    if a.Clear? || a.Genesis? {
      SealOk(s, a);
    } else {
      OtherOk(s, a);
    }
  }

  lemma StepKeeps(s: State, a: Action)
    requires Inv(s) && Step(s, a).Some?
    ensures Inv(Step(s, a).value)
  {
    hide Inv, EnclaveOk, ChainShape, LiveStep, Landing, ClaimLanding;
    match a
    case HideAnchor(number) => HidingKeeps(s, Step(s, a).value);
    case HideGeneration(number) => HidingKeeps(s, Step(s, a).value);
    case Start(e, number) => StartKeeps(s, e, number);
    case PutLands(e) => LandingKeeps(s, e);
    case PutClaim(e) => ClaimLandingKeeps(s, e);
    case _ => LiveStepKeeps(s, a);
  }

  lemma StartKeeps(s: State, e: EnclaveId, number: nat)
    requires Inv(s) && e !in s.enclaves
    ensures Inv(Set(s, e, Enclave(true, None, Unopened, Claiming(number), 0)))
  {
    OthersKept(s, Set(s, e, Enclave(true, None, Unopened, Claiming(number), 0)), e);
  }

  lemma {:induction false} RunKeeps(id: PoolIdentity, actions: seq<Action>)
    requires Run(id, actions).Some?
    ensures Inv(Run(id, actions).value)
  {
    if actions != [] {
      var before := actions[..|actions| - 1];
      RunKeeps(id, before);
      StepKeeps(Run(id, before).value, actions[|actions| - 1]);
    }
  }

  ghost predicate ExactlyBelow<B>(bucket: Bucket<nat, B>, count: nat) {
    forall n: nat :: Retained(bucket, n).Some? <==> n < count
  }

  /** Anchor `n` and the one before it are both retained, and the later names the earlier. */
  predicate Linked(s: State, n: nat)
    requires n > 0
  {
    && Retained(s.anchors, n).Some? && Retained(s.anchors, n - 1).Some?
    && Retained(s.anchors, n).value.prev == Of(Retained(s.anchors, n - 1).value)
  }

  /** Under any interleaving the retained anchors are exactly numbers 0 up to some tip, each naming the
      retained anchor before it, and an enclave's newest anchor is always one of them. */
  lemma ChainNeverForks(id: PoolIdentity, actions: seq<Action>)
    requires Run(id, actions).Some?
    ensures var s := Run(id, actions).value;
            && (exists count: nat :: ExactlyBelow(s.anchors, count))
            && (forall n: nat :: n > 0 && Retained(s.anchors, n).Some? ==> Linked(s, n))
            && (forall e :: e in s.enclaves && s.enclaves[e].newest.At? ==>
                  Retained(s.anchors, s.enclaves[e].newest.anchor.num) == Some(s.enclaves[e].newest.anchor))
  {
    RunKeeps(id, actions);
    var s := Run(id, actions).value;
    assert ExactlyBelow(s.anchors, |s.chain|);
    forall n: nat | n > 0 && Retained(s.anchors, n).Some? ensures Linked(s, n) {
      assert Retained(s.anchors, n - 1) == Some(s.chain[n - 1]);
    }
    forall e | e in s.enclaves && s.enclaves[e].newest.At?
      ensures Retained(s.anchors, s.enclaves[e].newest.anchor.num) == Some(s.enclaves[e].newest.anchor)
    {
      assert EnclaveOk(s, s.enclaves[e]);
    }
  }

  // ---- the fence ----------------------------------------------------------

  /** This enclave has passed its fence check and its PUT, of an anchor with a predecessor, has not landed. */
  predicate Waiting(s: State, e: EnclaveId) {
    e in s.enclaves && s.enclaves[e].phase.Cleared? && s.enclaves[e].phase.anchor.num > 0
  }

  predicate Fenced(s: State, e: EnclaveId) {
    e in s.enclaves && Superseded(s, s.enclaves[e])
  }

  /** While the enclave waits, the generation after its own is claimed for the first time. */
  predicate Caught(s: State, a: Action, e: EnclaveId) {
    && Waiting(s, e) && s.enclaves[e].generation.Some? && a.PutClaim? && a.e in s.enclaves
    && s.enclaves[a.e].phase == Claiming(s.enclaves[e].generation.value + 1)
    && Retained(s.generations, s.enclaves[e].generation.value + 1).None?
  }

  /** The enclave's PUT of an anchor with a predecessor lands where nothing is retained. */
  predicate Wins(s: State, a: Action, e: EnclaveId) {
    a == PutLands(e) && Waiting(s, e) && Retained(s.anchors, s.enclaves[e].phase.anchor.num).None?
  }

  ghost predicate CaughtIn(id: PoolIdentity, actions: seq<Action>, e: EnclaveId) {
    exists i :: 0 <= i < |actions| && Run(id, actions[..i]).Some? && Caught(Run(id, actions[..i]).value, actions[i], e)
  }

  /** At this step of the run the PUT won its number, and before it the enclave had been caught. */
  ghost predicate WinsCaughtAt(id: PoolIdentity, actions: seq<Action>, e: EnclaveId, j: nat) {
    && j < |actions| && Run(id, actions[..j]).Some?
    && CaughtIn(id, actions[..j], e) && Wins(Run(id, actions[..j]).value, actions[j], e)
  }

  /** The window between check and PUT, hit: caught waiting, and later in the run the PUT won. */
  ghost predicate CaughtThenWins(id: PoolIdentity, actions: seq<Action>, e: EnclaveId) {
    exists j: nat :: WinsCaughtAt(id, actions, e, j)
  }

  lemma CaughtMore(id: PoolIdentity, actions: seq<Action>, e: EnclaveId)
    requires actions != [] && Run(id, actions).Some?
    ensures var before, last := actions[..|actions| - 1], actions[|actions| - 1];
            CaughtIn(id, actions, e) <==> CaughtIn(id, before, e) || Caught(Run(id, before).value, last, e)
  {
    var before := actions[..|actions| - 1];
    assert Run(id, before).Some?;
    hide Run, Caught;
    assert forall i :: 0 <= i < |before| ==> before[..i] == actions[..i] && before[i] == actions[i];
  }

  lemma WinsCaughtMore(id: PoolIdentity, actions: seq<Action>, e: EnclaveId, j: nat)
    requires actions != [] && Run(id, actions).Some?
    ensures var before, last := actions[..|actions| - 1], actions[|actions| - 1];
            WinsCaughtAt(id, actions, e, j) <==>
              if j < |before| then WinsCaughtAt(id, before, e, j)
              else j == |before| && CaughtIn(id, before, e) && Wins(Run(id, before).value, last, e)
  {
    var before := actions[..|actions| - 1];
    assert Run(id, before).Some?;
    hide Run, CaughtIn, Wins;
    if j < |before| {
      assert before[..j] == actions[..j] && before[j] == actions[j];
    }
  }

  lemma CaughtThenWinsMore(id: PoolIdentity, actions: seq<Action>, e: EnclaveId)
    requires actions != [] && Run(id, actions).Some?
    ensures var before, last := actions[..|actions| - 1], actions[|actions| - 1];
            CaughtThenWins(id, actions, e) <==>
              CaughtThenWins(id, before, e) || (CaughtIn(id, before, e) && Wins(Run(id, before).value, last, e))
  {
    var before := actions[..|actions| - 1];
    forall j: nat ensures WinsCaughtAt(id, before, e, j) ==> WinsCaughtAt(id, actions, e, j) {
      WinsCaughtMore(id, actions, e, j);
    }
    WinsCaughtMore(id, actions, e, |before|);
    if j: nat :| WinsCaughtAt(id, actions, e, j) {
      WinsCaughtMore(id, actions, e, j);
    }
    hide Run, CaughtIn, Wins;
  }

  /** Once fenced, an enclave stays so: its generation is fixed and the one after it is retained. */
  lemma FencedStays(s: State, a: Action, e: EnclaveId)
    requires Inv(s) && Step(s, a).Some? && Fenced(s, e)
    ensures Fenced(Step(s, a).value, e)
  {
    assert EnclaveOk(s, s.enclaves[e]);
    var next: nat := s.enclaves[e].generation.value + 1;
    assert Retained(s.generations, next).Some?;
    hide Inv, EnclaveOk;
  }

  lemma CaughtIsFenced(s: State, a: Action, e: EnclaveId)
    requires Step(s, a).Some? && Caught(s, a, e)
    ensures Fenced(Step(s, a).value, e)
  {
  }

  lemma ClearedUnfenced(s: State, a: Action, e: EnclaveId)
    requires (a.Clear? || a.Genesis?) && a.e == e && Step(s, a).Some?
    ensures !(Waiting(Step(s, a).value, e) && Fenced(Step(s, a).value, e))
  {
  }

  lemma ClaimWaiting(s: State, claimer: EnclaveId, e: EnclaveId)
    requires claimer in s.enclaves && s.enclaves[claimer].phase.Claiming?
    requires Waiting(ClaimLanding(s, claimer), e) && Fenced(ClaimLanding(s, claimer), e)
    ensures (Waiting(s, e) && Fenced(s, e)) || Caught(s, PutClaim(claimer), e)
  {
    assert e != claimer && ClaimLanding(s, claimer).enclaves[e] == s.enclaves[e];
    var next: nat := s.enclaves[e].generation.value + 1;
    assert next != s.enclaves[claimer].phase.number ==> SlotAt(ClaimLanding(s, claimer).generations, next) == SlotAt(s.generations, next);
  }

  /** Short of a check or a claim nothing comes to wait, and no generation comes to be retained. */
  lemma OtherWaiting(s: State, a: Action, e: EnclaveId)
    requires Inv(s) && Step(s, a).Some? && !a.PutClaim? && !((a.Clear? || a.Genesis?) && a.e == e)
    requires Waiting(Step(s, a).value, e)
    ensures Waiting(s, e) && s.enclaves[e].generation == Step(s, a).value.enclaves[e].generation
    ensures forall n: nat :: Retained(Step(s, a).value.generations, n) == Retained(s.generations, n)
  {
    if e in s.enclaves {
      assert EnclaveOk(s, s.enclaves[e]);
    }
    hide Inv, EnclaveOk, Superseded, Retained;
  }

  /** An enclave that waits and is fenced was waiting already when it came to be, and it was caught. */
  lemma WaitingFencedStep(s: State, a: Action, e: EnclaveId)
    requires Inv(s) && Step(s, a).Some? && Waiting(Step(s, a).value, e) && Fenced(Step(s, a).value, e)
    ensures (Waiting(s, e) && Fenced(s, e)) || Caught(s, a, e)
  {
    hide Inv, Waiting, LiveStep, ClaimLanding;
    if a.PutClaim? {
      ClaimWaiting(s, a.e, e);
    } else if (a.Clear? || a.Genesis?) && a.e == e {
      ClearedUnfenced(s, a, e);
    } else {
      OtherWaiting(s, a, e);
      WaitingThere(s, e);
      hide Step;
      var next: nat := s.enclaves[e].generation.value + 1;
      assert Retained(Step(s, a).value.generations, next) == Retained(s.generations, next);
    }
  }

  lemma WaitingThere(s: State, e: EnclaveId)
    requires Waiting(s, e)
    ensures e in s.enclaves
  {
  }

  lemma {:induction false} CaughtFenced(id: PoolIdentity, actions: seq<Action>, e: EnclaveId)
    requires Run(id, actions).Some?
    ensures CaughtIn(id, actions, e) ==> Fenced(Run(id, actions).value, e)
    ensures Waiting(Run(id, actions).value, e) && Fenced(Run(id, actions).value, e) ==> CaughtIn(id, actions, e)
  {
    if actions != [] {
      var before, last := actions[..|actions| - 1], actions[|actions| - 1];
      var s := Run(id, before).value;
      CaughtFenced(id, before, e);
      CaughtMore(id, actions, e);
      RunKeeps(id, before);
      hide Step, Inv, CaughtIn, Caught, Waiting, Fenced;
      if Fenced(s, e) {
        FencedStays(s, last, e);
      }
      if Caught(s, last, e) {
        CaughtIsFenced(s, last, e);
      }
      if Waiting(Run(id, actions).value, e) && Fenced(Run(id, actions).value, e) {
        WaitingFencedStep(s, last, e);
      }
    }
  }

  function LateOf(s: State, e: EnclaveId): nat {
    if e in s.enclaves then s.enclaves[e].late else 0
  }

  lemma LateStep(s: State, a: Action, e: EnclaveId)
    requires Step(s, a).Some?
    ensures LateOf(Step(s, a).value, e) == LateOf(s, e) + if Wins(s, a, e) && Fenced(s, e) then 1 else 0
  {
    hide Superseded, Retained;
  }

  /** An enclave has an anchor retained after a newer generation exists exactly when, in this order, that generation
      was first claimed while the enclave was between its fence check and its PUT, and the PUT then won its number. */
  lemma {:induction false} LateExactly(id: PoolIdentity, actions: seq<Action>, e: EnclaveId)
    requires Run(id, actions).Some?
    ensures LateOf(Run(id, actions).value, e) > 0 <==> CaughtThenWins(id, actions, e)
  {
    if actions != [] {
      var before := actions[..|actions| - 1];
      LateExactly(id, before, e);
      CaughtFenced(id, before, e);
      CaughtThenWinsMore(id, actions, e);
      hide Step, Fenced, CaughtIn, CaughtThenWins, LateOf;
      LateStep(Run(id, before).value, actions[|actions| - 1], e);
    }
  }

  /** The fence is checked before the PUT, not with it: a superseded enclave can still add one anchor
      with a predecessor, the one it had already cleared when it was superseded, and never a second. */
  lemma SupersededPublishesAtMostOnce(id: PoolIdentity, actions: seq<Action>, e: EnclaveId)
    requires Run(id, actions).Some? && e in Run(id, actions).value.enclaves
    ensures var s := Run(id, actions).value;
            && s.enclaves[e].late <= 1
            && (s.enclaves[e].late == 1 ==> Superseded(s, s.enclaves[e]) && !Waiting(s, e) && CaughtIn(id, actions, e))
  {
    RunKeeps(id, actions);
    LateExactly(id, actions, e);
    CaughtThenIn(id, actions, e);
    assert EnclaveOk(Run(id, actions).value, Run(id, actions).value.enclaves[e]);
  }

  lemma CaughtThenIn(id: PoolIdentity, actions: seq<Action>, e: EnclaveId)
    ensures CaughtThenWins(id, actions, e) ==> CaughtIn(id, actions, e)
  {
    if j: nat :| WinsCaughtAt(id, actions, e, j) {
      var i :| 0 <= i < j && Run(id, actions[..j][..i]).Some? && Caught(Run(id, actions[..j][..i]).value, actions[..j][i], e);
      assert actions[..j][..i] == actions[..i];
    }
  }

  /** Every PUT of this enclave lands in the step after its own fence check. */
  predicate FenceAndPutAsOne(actions: seq<Action>, e: EnclaveId) {
    forall i :: 0 <= i < |actions| && actions[i] == PutLands(e) ==>
      i > 0 && (actions[i - 1].Clear? || actions[i - 1].Genesis?) && actions[i - 1].e == e
  }

  /** If an enclave's check and PUT were one step, it would add nothing at all once superseded. */
  lemma {:induction false} AtomicFenceHolds(id: PoolIdentity, actions: seq<Action>, e: EnclaveId)
    requires Run(id, actions).Some? && FenceAndPutAsOne(actions, e)
    ensures LateOf(Run(id, actions).value, e) == 0
  {
    if actions != [] {
      var before, a := actions[..|actions| - 1], actions[|actions| - 1];
      AtomicFenceHolds(id, before, e);
      LateStep(Run(id, before).value, a, e);
      hide Step, Waiting, Fenced;
      if a == PutLands(e) {
        var previous := before[|before| - 1];
        assert previous == actions[|actions| - 2];
        ClearedUnfenced(Run(id, before[..|before| - 1]).value, previous, e);
      }
    }
  }

  lemma RunStep(id: PoolIdentity, actions: seq<Action>, a: Action) returns (longer: seq<Action>)
    requires Run(id, actions).Some? && Step(Run(id, actions).value, a).Some?
    ensures longer == actions + [a] && Run(id, longer) == Step(Run(id, actions).value, a)
  {
    longer := actions + [a];
    assert longer[..|longer| - 1] == actions;
  }

  /** An enclave that has claimed generation 0 of an empty bucket. */
  lemma FirstClaim(id: PoolIdentity) returns (actions: seq<Action>)
    ensures Run(id, actions) == Some(Init(id).(
              enclaves := map[0 := Enclave(true, Some(0), Unopened, Idle, 0)],
              generations := map[0 := Slot(Some(0), false)]))
  {
    actions := RunStep(id, [], Start(0, 0));
    actions := RunStep(id, actions, PutClaim(0));
    actions := RunStep(id, actions, ReadClaim(0, 0));
    assert Run(id, actions).value.enclaves == map[0 := Enclave(true, Some(0), Unopened, Idle, 0)];
  }

  /** The same enclave with the pool's anchor 0. */
  lemma FirstAnchor(id: PoolIdentity) returns (actions: seq<Action>)
    ensures Run(id, actions).Some?
    ensures var s := Run(id, actions).value;
            var genesis := Anchor(0, Zero, id, 7, 1, [1]);
            && s.enclaves == map[0 := Enclave(true, Some(0), At(genesis), Idle, 0)]
            && s.generations == map[0 := Slot(Some(0), false)]
            && s.anchors == map[0 := Slot(Some(genesis), false)]
            && s.chain == [genesis] && s.nonces == {[1]} && s.id == id
  {
    actions := FirstClaim(id);
    actions := RunStep(id, actions, Genesis(0, 7, 1, [1]));
    actions := RunStep(id, actions, PutLands(0));
    actions := RunStep(id, actions, ReadBack(0));
  }

  /** The code checks and then PUTs, and an enclave can start between the two. */
  lemma LatePublishHappens(id: PoolIdentity) returns (actions: seq<Action>)
    ensures Run(id, actions).Some?
    ensures var s := Run(id, actions).value; 0 in s.enclaves && s.enclaves[0].late == 1 && |s.chain| == 2
  {
    actions := FirstAnchor(id);
    actions := RunStep(id, actions, Clear(0, 7, 2, [2]));
    actions := RunStep(id, actions, Start(1, 1));
    actions := RunStep(id, actions, PutClaim(1));
    actions := RunStep(id, actions, PutLands(0));
  }

  // ---- generations --------------------------------------------------------

  /** This enclave's PUT of a generation went through. */
  predicate Stored(enclave: Enclave, g: nat) {
    enclave.phase == Claimed(g, true) || enclave.generation == Some(g)
  }

  function Holders(s: State, g: nat): set<EnclaveId> {
    set e | e in s.enclaves && Stored(s.enclaves[e], g)
  }

  /** A generation is retained exactly when somebody's PUT of it went through, and its body is its number. */
  ghost predicate GenerationsOk(s: State) {
    forall g: nat ::
      && (Retained(s.generations, g).Some? ==> Retained(s.generations, g) == Some(g))
      && (Retained(s.generations, g).Some? <==> Holders(s, g) != {})
  }

  /** Reading a claim back changes nothing about who holds what: the body a winner finds is the body it
      sent, whoever sent it. */
  lemma HoldersKept(s: State, a: Action, g: nat)
    requires GenerationsOk(s) && Step(s, a).Some? && !a.PutClaim?
    requires a.ReadClaim? ==> a.e in s.enclaves && EnclaveOk(s, s.enclaves[a.e])
    ensures Holders(Step(s, a).value, g) == Holders(s, g)
  {
    hide Superseded;
    if a.ReadClaim? {
      var n := s.enclaves[a.e].phase.number;
      assert s.enclaves[a.e].phase.stored ==> a.e in Holders(s, n);
    }
  }

  lemma ClaimHolders(s: State, e: EnclaveId, g: nat)
    requires e in s.enclaves && s.enclaves[e].phase.Claiming? && s.enclaves[e].generation.None?
    ensures var n := s.enclaves[e].phase.number;
            var won := if g == n && PutSucceeds(s.generations, n) then {e} else {};
            e !in Holders(s, g) && Holders(ClaimLanding(s, e), g) == Holders(s, g) + won
  {
  }

  lemma ClaimKeepsGenerations(s: State, e: EnclaveId)
    requires GenerationsOk(s) && e in s.enclaves && s.enclaves[e].phase.Claiming? && EnclaveOk(s, s.enclaves[e])
    ensures GenerationsOk(ClaimLanding(s, e))
  {
    var s' := ClaimLanding(s, e);
    forall g: nat
      ensures && (Retained(s'.generations, g).Some? ==> Retained(s'.generations, g) == Some(g))
              && (Retained(s'.generations, g).Some? <==> Holders(s', g) != {})
    {
      ClaimHolders(s, e, g);
      hide Holders;
      assert Retained(s.generations, g).Some? <==> Holders(s, g) != {};
    }
  }

  lemma StepKeepsGenerations(s: State, a: Action)
    requires Inv(s) && GenerationsOk(s) && Step(s, a).Some?
    ensures GenerationsOk(Step(s, a).value)
  {
    if a.PutClaim? {
      ClaimKeepsGenerations(s, a.e);
    } else {
      var s' := Step(s, a).value;
      forall g: nat ensures Holders(s', g) == Holders(s, g) && Retained(s'.generations, g) == Retained(s.generations, g) {
        HoldersKept(s, a, g);
      }
    }
  }

  lemma {:induction false} RunKeepsGenerations(id: PoolIdentity, actions: seq<Action>)
    requires Run(id, actions).Some?
    ensures Inv(Run(id, actions).value) && GenerationsOk(Run(id, actions).value)
  {
    RunKeeps(id, actions);
    if actions != [] {
      var before := actions[..|actions| - 1];
      RunKeepsGenerations(id, before);
      hide Step, Inv, GenerationsOk;
      StepKeepsGenerations(Run(id, before).value, actions[|actions| - 1]);
    }
  }

  /** A PUT of generation `g` where it is already retained, under a delete marker that lets it through. */
  predicate Reclaims(s: State, a: Action, g: nat) {
    && a.PutClaim? && a.e in s.enclaves && s.enclaves[a.e].phase == Claiming(g)
    && Retained(s.generations, g).Some? && SlotAt(s.generations, g).hidden
  }

  ghost predicate ReclaimedIn(id: PoolIdentity, actions: seq<Action>, g: nat) {
    exists i :: 0 <= i < |actions| && Run(id, actions[..i]).Some? && Reclaims(Run(id, actions[..i]).value, actions[i], g)
  }

  lemma ReclaimedStep(id: PoolIdentity, actions: seq<Action>, g: nat)
    requires actions != [] && Run(id, actions).Some?
    ensures var before := actions[..|actions| - 1];
            ReclaimedIn(id, actions, g) <==>
              ReclaimedIn(id, before, g) || Reclaims(Run(id, before).value, actions[|actions| - 1], g)
  {
    var before := actions[..|actions| - 1];
    assert Run(id, before).Some?;
    hide Run, Reclaims;
    assert forall i :: 0 <= i < |before| ==> before[..i] == actions[..i] && before[i] == actions[i];
  }

  /** One step gives a generation a second holder exactly when it reclaims it. */
  lemma HoldersStep(s: State, a: Action, g: nat)
    requires Inv(s) && GenerationsOk(s) && Step(s, a).Some?
    ensures |Holders(Step(s, a).value, g)| >= 2 <==> |Holders(s, g)| >= 2 || Reclaims(s, a, g)
  {
    hide Holders;
    assert Retained(s.generations, g).Some? <==> Holders(s, g) != {};
    if a.PutClaim? {
      assert EnclaveOk(s, s.enclaves[a.e]);
      ClaimHolders(s, a.e, g);
      hide Inv, GenerationsOk, EnclaveOk;
      assert a.e !in Holders(s, g) ==> |Holders(s, g) + {a.e}| == |Holders(s, g)| + 1;
      assert Holders(s, g) + {} == Holders(s, g);
      assert Holders(s, g) != {} ==> |Holders(s, g)| >= 1;
    } else {
      HoldersKept(s, a, g);
    }
  }

  /** A generation has two holders exactly when it was claimed, at some step of the run, while it was already
      retained under a delete marker: the read-back cannot tell the two claims apart. */
  lemma {:induction false} GenerationUniqueUnlessReclaimed(id: PoolIdentity, actions: seq<Action>, g: nat)
    requires Run(id, actions).Some?
    ensures |Holders(Run(id, actions).value, g)| <= 1 <==> !ReclaimedIn(id, actions, g)
  {
    if actions == [] {
      assert Holders(Run(id, actions).value, g) == {};
    } else {
      var before := actions[..|actions| - 1];
      RunKeepsGenerations(id, before);
      GenerationUniqueUnlessReclaimed(id, before, g);
      ReclaimedStep(id, actions, g);
      hide Step, Inv, GenerationsOk, Holders, Reclaims, ReclaimedIn;
      HoldersStep(Run(id, before).value, actions[|actions| - 1], g);
    }
  }

  /** Without a delete marker over a generation nothing is reclaimed, so claims are unique. */
  lemma {:induction false} ReclaimingTakesADeleteMarker(id: PoolIdentity, actions: seq<Action>)
    requires Run(id, actions).Some?
    requires forall a :: a in actions ==> !a.HideGeneration?
    ensures forall g: nat :: !SlotAt(Run(id, actions).value.generations, g).hidden && !ReclaimedIn(id, actions, g)
  {
    if actions != [] {
      var before := actions[..|actions| - 1];
      ReclaimingTakesADeleteMarker(id, before);
      assert actions[|actions| - 1] in actions;
      forall g: nat ensures !ReclaimedIn(id, actions, g) {
        ReclaimedStep(id, actions, g);
      }
    }
  }

  // ---- generations have no gap --------------------------------------------

  /** Generations are retained exactly below some count, and nobody is claiming one past it. */
  ghost predicate GapFree(s: State, count: nat) {
    && ExactlyBelow(s.generations, count)
    && forall e :: e in s.enclaves && s.enclaves[e].phase.Claiming? ==> s.enclaves[e].phase.number <= count
  }

  lemma ClaimGapFree(s: State, e: EnclaveId, count: nat) returns (next: nat)
    requires GapFree(s, count) && e in s.enclaves && s.enclaves[e].phase.Claiming?
    ensures count <= next && GapFree(ClaimLanding(s, e), next)
  {
    var number := s.enclaves[e].phase.number;
    next := if number == count then count + 1 else count;
    forall n: nat ensures Retained(ClaimLanding(s, e).generations, n).Some? <==> n < next {
      assert Retained(s.generations, n).Some? <==> n < count;
      assert SlotAt(ClaimLanding(s, e).generations, n) == if n == number then SlotAt(ClaimLanding(s, e).generations, n) else SlotAt(s.generations, n);
    }
  }

  lemma StepGapFree(s: State, a: Action, count: nat) returns (next: nat)
    requires GapFree(s, count) && Step(s, a).Some?
    ensures count <= next && GapFree(Step(s, a).value, next)
  {
    next := count;
    if a.PutClaim? {
      next := ClaimGapFree(s, a.e, count);
    } else {
      var s' := Step(s, a).value;
      hide Superseded;
      forall n: nat ensures Retained(s'.generations, n).Some? <==> n < count {
        assert Retained(s.generations, n).Some? <==> n < count;
      }
      forall e | e in s'.enclaves && s'.enclaves[e].phase.Claiming? ensures s'.enclaves[e].phase.number <= count {
        ClaimsBelow(s, a, e);
        var number := s'.enclaves[e].phase.number;
        assert number > 0 && Claimable(s, number) ==> Retained(s.generations, number - 1).Some?;
      }
    }
  }

  /** What an enclave is claiming it was claiming before, or its search just led to. */
  lemma ClaimsBelow(s: State, a: Action, e: EnclaveId)
    requires Step(s, a).Some? && e in Step(s, a).value.enclaves && Step(s, a).value.enclaves[e].phase.Claiming?
    ensures var phase := Step(s, a).value.enclaves[e].phase;
            (e in s.enclaves && s.enclaves[e].phase == phase) || Claimable(s, phase.number)
  {
    hide Superseded, Retained;
  }

  /** In any run the generations retained are exactly those below some count, as the search for the newest and the
      fence, which looks at the next one alone, both rely on. */
  lemma {:induction false} GenerationsHaveNoGap(id: PoolIdentity, actions: seq<Action>) returns (count: nat)
    requires Run(id, actions).Some?
    ensures GapFree(Run(id, actions).value, count)
  {
    count := 0;
    if actions != [] {
      var before := actions[..|actions| - 1];
      count := GenerationsHaveNoGap(id, before);
      hide Step, GapFree;
      count := StepGapFree(Run(id, before).value, actions[|actions| - 1], count);
    }
  }

  /** So an enclave that any later generation supersedes, the fence holds back: the next one is there. */
  lemma FenceSeesAnyLater(id: PoolIdentity, actions: seq<Action>, g: nat, later: nat)
    requires Run(id, actions).Some? && g < later && Retained(Run(id, actions).value.generations, later).Some?
    ensures Retained(Run(id, actions).value.generations, g + 1).Some?
  {
    var count := GenerationsHaveNoGap(id, actions);
    var s := Run(id, actions).value;
    hide Run;
    assert ExactlyBelow(s.generations, count);
    var next: nat := g + 1;
    assert Retained(s.generations, next).Some?;
  }

  /** Two enclaves searched an empty bucket; the first has claimed generation 0. */
  lemma BothSearched(id: PoolIdentity) returns (actions: seq<Action>)
    ensures Run(id, actions) == Some(Init(id).(
              enclaves := map[0 := Enclave(true, Some(0), Unopened, Idle, 0), 1 := Enclave(true, None, Unopened, Claiming(0), 0)],
              generations := map[0 := Slot(Some(0), false)]))
  {
    actions := RunStep(id, [], Start(0, 0));
    actions := RunStep(id, actions, Start(1, 0));
    actions := RunStep(id, actions, PutClaim(0));
    actions := RunStep(id, actions, ReadClaim(0, 0));
    var s := Run(id, actions).value;
    assert s.enclaves == map[0 := Enclave(true, Some(0), Unopened, Idle, 0), 1 := Enclave(true, None, Unopened, Claiming(0), 0)];
    assert s.generations == map[0 := Slot(Some(0), false)];
  }

  /** Two live enclaves, both told that generation 0 is theirs. */
  lemma TwoHoldersHappen(id: PoolIdentity) returns (actions: seq<Action>)
    ensures Run(id, actions).Some?
    ensures var s := Run(id, actions).value;
            s.enclaves == map[0 := Enclave(true, Some(0), Unopened, Idle, 0), 1 := Enclave(true, Some(0), Unopened, Idle, 0)]
  {
    actions := BothSearched(id);
    actions := RunStep(id, actions, HideGeneration(0));
    actions := RunStep(id, actions, PutClaim(1));
    actions := RunStep(id, actions, ReadClaim(1, 0));
  }

  // ---- left alone, each call comes to something ---------------------------

  /** The newest anchor there is. */
  predicate HoldsTip(s: State, me: Enclave) {
    me.newest.At? && Retained(s.anchors, me.newest.anchor.num + 1).None?
  }

  lemma PublishSteps(s: State, e: EnclaveId, guid: nat, txg: nat, nonce: bytes) returns (one: State, two: State, three: State)
    requires e in s.enclaves && s.enclaves[e].alive && s.enclaves[e].generation.Some? && s.enclaves[e].phase.Idle?
    requires HoldsTip(s, s.enclaves[e]) && !Superseded(s, s.enclaves[e]) && nonce !in s.nonces
    ensures Step(s, Clear(e, guid, txg, nonce)) == Some(one) && Step(one, PutLands(e)) == Some(two) && Step(two, ReadBack(e)) == Some(three)
    ensures var tip := s.enclaves[e].newest.anchor;
            var next := Anchor(tip.num + 1, Of(tip), s.id, guid, txg, nonce);
            && three.chain == s.chain + [next] && Retained(three.anchors, next.num) == Some(next)
            && three.enclaves == s.enclaves[e := s.enclaves[e].(newest := At(next))]
  {
    hide Put;
    one := Step(s, Clear(e, guid, txg, nonce)).value;
    assert one.enclaves[e].phase.Cleared? && one.anchors == s.anchors && !Superseded(one, one.enclaves[e]);
    two := Landing(one, e);
    assert two.enclaves[e].phase.Answered? && two.enclaves[e].phase.stored;
    three := Step(two, ReadBack(e)).value;
  }

  /** From every reachable state, an enclave that holds the newest anchor and that no later generation has superseded
      publishes the next one if it is left to: it is retained, and follows. */
  lemma UncontestedPublishes(id: PoolIdentity, actions: seq<Action>, e: EnclaveId, guid: nat, txg: nat, nonce: bytes)
    returns (s': State, all: seq<Action>)
    requires Run(id, actions).Some?
    requires var s := Run(id, actions).value;
             && e in s.enclaves && s.enclaves[e].alive && s.enclaves[e].generation.Some? && s.enclaves[e].phase.Idle?
             && HoldsTip(s, s.enclaves[e]) && !Superseded(s, s.enclaves[e]) && nonce !in s.nonces
    ensures all == actions + [Clear(e, guid, txg, nonce), PutLands(e), ReadBack(e)] && Run(id, all) == Some(s')
    ensures var s := Run(id, actions).value;
            var tip := s.enclaves[e].newest.anchor;
            var next := Anchor(tip.num + 1, Of(tip), s.id, guid, txg, nonce);
            && s'.chain == s.chain + [next] && Retained(s'.anchors, next.num) == Some(next)
            && s'.enclaves == s.enclaves[e := s.enclaves[e].(newest := At(next))]
  {
    hide Run, Step, Superseded, HoldsTip;
    var one, two, three := PublishSteps(Run(id, actions).value, e, guid, txg, nonce);
    all := RunStep(id, actions, Clear(e, guid, txg, nonce));
    all := RunStep(id, all, PutLands(e));
    all := RunStep(id, all, ReadBack(e));
    s' := three;
  }

  /** One that a later generation has superseded stops at its next call, with nothing published. */
  lemma SupersededStops(s: State, e: EnclaveId, guid: nat, txg: nat, nonce: bytes)
    requires e in s.enclaves && s.enclaves[e].alive && s.enclaves[e].phase.Idle? && s.enclaves[e].newest.At?
    requires Superseded(s, s.enclaves[e]) && nonce !in s.nonces
    ensures var s' := Step(s, Clear(e, guid, txg, nonce));
            && s'.Some? && s'.value.enclaves == s.enclaves[e := s.enclaves[e].(newest := Stopped)]
            && s'.value.anchors == s.anchors && s'.value.chain == s.chain
  {
  }

  /** An enclave that starts after the newest generation, and is left to, claims the next one. */
  lemma UncontestedClaims(id: PoolIdentity, actions: seq<Action>, e: EnclaveId, number: nat)
    returns (s': State, all: seq<Action>)
    requires Run(id, actions).Some?
    requires var s := Run(id, actions).value;
             e !in s.enclaves && Retained(s.generations, number).None? && (number > 0 ==> Retained(s.generations, number - 1).Some?)
    ensures all == actions + [Start(e, number), PutClaim(e), ReadClaim(e, number)] && Run(id, all) == Some(s')
    ensures var s := Run(id, actions).value;
            && Retained(s'.generations, number) == Some(number)
            && s'.enclaves == s.enclaves[e := Enclave(true, Some(number), Unopened, Idle, 0)]
            && s'.anchors == s.anchors
  {
    hide Run;
    var one := RunStep(id, actions, Start(e, number));
    var two := RunStep(id, one, PutClaim(e));
    all := RunStep(id, two, ReadClaim(e, number));
    s' := Run(id, all).value;
  }
}
