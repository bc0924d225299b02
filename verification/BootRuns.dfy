/** What holds over whole runs of boots: one identity, one order of storing, and what a crash or a delete marker costs. */
module BootRuns {
  import opened Wrappers
  import opened Roots
  import opened Boot

  lemma {:induction false} RunKeeps(w: World, actions: seq<Action>)
    requires Inv(w)
    ensures Inv(Run(w, actions))
  {
    if actions != [] {
      RunKeeps(w, actions[..|actions| - 1]);
      NextKeeps(Run(w, actions[..|actions| - 1]), actions[|actions| - 1]);
    }
  }

  ghost function Reached(actions: seq<Action>): World {
    Run(Empty, actions)
  }

  // ---- one identity -------------------------------------------------------

  /** Every boot that ever succeeded established the identity the receipt commits to, whose key signed anchor 0;
      so all of them adopted one sealed key and one history. */
  lemma OneIdentity(actions: seq<Action>, one: StateRoot, other: StateRoot)
    requires one in Reached(actions).adopted && other in Reached(actions).adopted
    ensures one == other && Retained(Reached(actions).bucket, ReceiptKey) == Some(Receipt(one))
    ensures Retained(Reached(actions).bucket, AnchorZero) == Some(Anchor(one.genesis)) && one.genesis.signer == one.sealed
  {
    RunKeeps(Empty, actions);
    hide Run, BootOk;
  }

  /** A boot that succeeded is recorded: for its own pair, holding the identity it established. */
  lemma BootedIsRecorded(actions: seq<Action>, id: nat)
    requires var w := Reached(actions); id in w.boots && w.boots[id].phase.Booted?
    ensures var w := Reached(actions);
            var boot := w.boots[id];
            && boot.phase.root in w.adopted
            && Retained(w.bucket, PairRecord(boot.pair)) == Some(Record(boot.pair, boot.phase.root))
            && (!boot.phase.mode.Genesis? ==> Retained(w.bucket, SealedKey) == Some(Sealed(boot.phase.root.sealed)))
  {
    RunKeeps(Empty, actions);
    hide Run, StoreOk;
    assert BootOk(Reached(actions), Reached(actions).boots[id]);
  }

  /** A record stands only beside a receipt, a receipt beside its anchor 0, and that beside a sealed key. */
  lemma StoredInOrder(actions: seq<Action>, pair: Pair)
    ensures var b := Reached(actions).bucket;
            && (Retained(b, PairRecord(pair)).Some? ==> Retained(b, ReceiptKey).Some?)
            && (Retained(b, ReceiptKey).Some? ==> Retained(b, AnchorZero).Some?)
            && (Retained(b, AnchorZero).Some? ==> Retained(b, SealedKey).Some?)
  {
    RunKeeps(Empty, actions);
    hide Run, BootOk;
  }

  /** The receipt is read first and written last, so no boot meets one without its key. */
  lemma NeverReceiptWithoutKey(actions: seq<Action>, id: nat)
    requires id in Reached(actions).boots
    ensures Reached(actions).boots[id].phase != Refused(ReceiptWithoutKey)
  {
    RunKeeps(Empty, actions);
    hide Run, StoreOk;
    assert BootOk(Reached(actions), Reached(actions).boots[id]);
  }

  // ---- an interrupted genesis ---------------------------------------------

  /** A sealed key without a receipt, and nobody left who could write one. */
  ghost predicate Abandoned(w: World) {
    && Inv(w) && Retained(w.bucket, SealedKey).Some? && Retained(w.bucket, ReceiptKey).None?
    && forall i :: i in w.boots ==> !w.boots[i].phase.Chosen? && Holds(w.boots[i].phase).None?
  }

  lemma AbandonedStep(w: World, action: Action)
    requires Abandoned(w)
    ensures Abandoned(Next(w, action)) && Next(w, action).adopted == {}
  {
    NextKeeps(w, action);
    assert w.adopted == {};
    if action.Advance? && action.id in w.boots {
      assert BootOk(w, w.boots[action.id]);
    }
  }

  /** Such a store is never booted again, by anyone. */
  lemma {:induction false} AbandonedForGood(w: World, actions: seq<Action>)
    requires Abandoned(w)
    ensures Abandoned(Run(w, actions)) && Run(w, actions).adopted == {}
  {
    if actions == [] {
      assert w.adopted == {};
    } else {
      AbandonedForGood(w, actions[..|actions| - 1]);
      hide Abandoned, Next;
      AbandonedStep(Run(w, actions[..|actions| - 1]), actions[|actions| - 1]);
    }
  }

  // ---- the lease ----------------------------------------------------------

  ghost predicate LeaseHeld(w: World) {
    && !SlotAt(w.bucket, SealedKey).hidden
    && (forall m :: m in w.leases ==> Retained(w.bucket, SealedKey) == Some(Sealed(m)))
  }

  lemma LeaseStep(w: World, action: Action)
    requires LeaseHeld(w) && action != Hidden(SealedKey)
    requires Inv(w)
    ensures LeaseHeld(Next(w, action))
  {
    hide BootOk, HoldersApart, StoreOk;
  }

  lemma {:induction false} LeaseRun(actions: seq<Action>)
    requires Hidden(SealedKey) !in actions
    ensures LeaseHeld(Reached(actions))
  {
    if actions != [] {
      var before := actions[..|actions| - 1];
      LeaseRun(before);
      RunKeeps(Empty, before);
      hide LeaseHeld, Next, Inv;
      LeaseStep(Reached(before), actions[|actions| - 1]);
    }
  }

  /** While no delete marker is laid over the sealed key, one cold boot at most passes the lease, and its key
      is the one retained. */
  lemma LeaseExclusive(actions: seq<Action>, one: Master, other: Master)
    requires Hidden(SealedKey) !in actions
    requires one in Reached(actions).leases && other in Reached(actions).leases
    ensures one == other && Retained(Reached(actions).bucket, SealedKey) == Some(Sealed(one))
  {
    LeaseRun(actions);
  }

  /** A lease that goes through. */
  predicate TakesLease(w: World, action: Action) {
    && action.Lease? && action.id in w.boots && w.boots[action.id].phase.Chosen? && action.master !in w.leases
    && PutSucceeds(w.bucket, SealedKey)
  }

  /** A sealed key is retained and a delete marker lies over it. */
  predicate KeyHidden(w: World) {
    Retained(w.bucket, SealedKey).Some? && SlotAt(w.bucket, SealedKey).hidden
  }

  /** A lease goes through where the sealed key is already retained, as only a marker over it allows. */
  predicate TakesSecondLease(w: World, action: Action) {
    TakesLease(w, action) && KeyHidden(w)
  }

  ghost predicate SecondLeaseIn(actions: seq<Action>) {
    exists i :: 0 <= i < |actions| && TakesSecondLease(Reached(actions[..i]), actions[i])
  }

  ghost predicate LeasesOk(w: World) {
    w.leases == {} <==> Retained(w.bucket, SealedKey).None?
  }

  /** Only a lease adds to the leases, and it adds one. */
  lemma LeasesStep(w: World, action: Action)
    requires LeasesOk(w)
    ensures LeasesOk(Next(w, action))
    ensures Next(w, action).leases == w.leases + if TakesLease(w, action) then {action.master} else {}
    ensures TakesLease(w, action) && !KeyHidden(w) ==> w.leases == {}
  {
  }

  lemma SecondLeaseStep(actions: seq<Action>)
    requires actions != []
    ensures var before, last := actions[..|actions| - 1], actions[|actions| - 1];
            SecondLeaseIn(actions) <==> SecondLeaseIn(before) || TakesSecondLease(Reached(before), last)
  {
    var before := actions[..|actions| - 1];
    hide TakesSecondLease, Run;
    assert forall i :: 0 <= i < |before| ==> before[..i] == actions[..i] && before[i] == actions[i];
  }

  lemma {:induction false} LeasesCounted(actions: seq<Action>)
    ensures LeasesOk(Reached(actions)) && (|Reached(actions).leases| >= 2 <==> SecondLeaseIn(actions))
  {
    if actions != [] {
      var before, last := actions[..|actions| - 1], actions[|actions| - 1];
      var w := Reached(before);
      LeasesCounted(before);
      LeasesStep(w, last);
      SecondLeaseStep(actions);
      hide Next, SecondLeaseIn, LeasesOk;
      assert TakesLease(w, last) ==> |w.leases + {last.master}| == |w.leases| + 1;
      assert w.leases == {} ==> |w.leases| == 0;
      assert w.leases != {} ==> |w.leases| >= 1;
      assert w.leases + {} == w.leases;
      LeaseHasKey(w);
    }
  }

  lemma LeaseHasKey(w: World)
    ensures LeasesOk(w) && KeyHidden(w) ==> w.leases != {}
  {
  }

  /** More than one cold boot passes the genesis lease exactly when a lease of the run was taken where the sealed
      key was already retained and hidden under a delete marker. */
  lemma LeasesIffHidden(actions: seq<Action>)
    ensures |Reached(actions).leases| >= 2 <==>
              exists i :: 0 <= i < |actions| && TakesSecondLease(Reached(actions[..i]), actions[i])
  {
    LeasesCounted(actions);
  }

  // ---- when a store can be resumed ----------------------------------------

  ghost predicate Resumable(w: World) {
    && Retained(w.bucket, ReceiptKey).Some? && Retained(w.bucket, ReceiptKey).value.Receipt?
    && Retained(w.bucket, SealedKey) == Some(Sealed(Retained(w.bucket, ReceiptKey).value.root.sealed))
  }

  ghost function Steps(w: World, id: nat, n: nat): (r: World)
    requires id in w.boots
    ensures id in r.boots
  {
    if n == 0 then w else Next(Steps(w, id, n - 1), Advance(id))
  }

  ghost function With(w: World, id: nat, phase: Phase): World
    requires id in w.boots
  {
    w.(boots := w.boots[id := w.boots[id].(phase := phase)])
  }

  /** A step that only reads moves the boot and nothing else. */
  lemma MovesOn(w: World, id: nat, n: nat, phase: Phase, next: Phase)
    requires id in w.boots && Steps(w, id, n) == With(w, id, phase)
    requires Moved(w.bucket, w.boots[id].pair, phase) == Move(w.bucket, next) && !next.Booted?
    ensures Steps(w, id, n + 1) == With(w, id, next)
  {
    hide Moved;
    assert w.boots[id := w.boots[id].(phase := phase)][id := w.boots[id].(phase := next)] == w.boots[id := w.boots[id].(phase := next)];
  }

  lemma ReadsBoth(w: World, id: nat)
    requires Inv(w) && id in w.boots && w.boots[id].phase == Started && Retained(w.bucket, ReceiptKey).Some?
    ensures Retained(w.bucket, SealedKey).Some?
    ensures Steps(w, id, 2) == With(w, id, Opening(Retained(w.bucket, ReceiptKey).value, Retained(w.bucket, SealedKey).value))
  {
    hide BootOk, HoldersApart;
    var receipt, sealed := Retained(w.bucket, ReceiptKey), Retained(w.bucket, SealedKey);
    assert w.boots[id].(phase := Started) == w.boots[id] && w.boots[id := w.boots[id]] == w.boots;
    assert Steps(w, id, 0) == With(w, id, Started);
    MovesOn(w, id, 0, Started, ReceiptRead(receipt));
    MovesOn(w, id, 1, ReceiptRead(receipt), Opening(receipt.value, sealed.value));
  }

  /** With the key it commits to, a boot comes as far as recording its pair. */
  lemma ComesToRecord(w: World, id: nat)
    requires Inv(w) && id in w.boots && w.boots[id].phase == Started && Resumable(w)
    ensures Steps(w, id, 4) == With(w, id, Recording(Retained(w.bucket, ReceiptKey).value.root, Resume))
  {
    ReadsBoth(w, id);
    var receipt := Retained(w.bucket, ReceiptKey).value;
    var root := receipt.root;
    assert Retained(w.bucket, AnchorZero) == Some(Anchor(root.genesis)) && root.genesis.signer == root.sealed;
    MovesOn(w, id, 2, Opening(receipt, Sealed(root.sealed)), Opened(receipt, root));
    MovesOn(w, id, 3, Opened(receipt, root), Recording(root, Resume));
  }

  lemma BootsNext(w: World, id: nat)
    requires id in w.boots
    requires var boot, found := w.boots[id], Retained(w.bucket, PairRecord(w.boots[id].pair));
             || boot.phase.Booted?
             || (boot.phase.Putting? && found.None?)
             || (boot.phase.Recording? && found == Some(Record(boot.pair, boot.phase.root)))
    ensures id in Next(w, Advance(id)).boots
    ensures Next(w, Advance(id)).boots[id].phase == Booted(w.boots[id].phase.root, w.boots[id].phase.mode)
  {
  }

  lemma RecordFits(w: World, pair: Pair, root: StateRoot)
    requires Inv(w) && Retained(w.bucket, ReceiptKey) == Some(Receipt(root)) && Retained(w.bucket, PairRecord(pair)).Some?
    ensures Retained(w.bucket, PairRecord(pair)) == Some(Record(pair, root))
  {
    hide BootOk, HoldersApart;
  }

  lemma Finishes(w: World, id: nat, root: StateRoot)
    requires Inv(w) && id in w.boots && Steps(w, id, 4) == With(w, id, Recording(root, Resume))
    requires Retained(w.bucket, ReceiptKey) == Some(Receipt(root))
    ensures var recorded := Retained(w.bucket, PairRecord(w.boots[id].pair)).Some?;
            Steps(w, id, 6).boots[id].phase == Booted(root, if recorded then Resume else Upgrade)
  {
    hide Inv, Next;
    var pair := w.boots[id].pair;
    var five := Steps(w, id, 5);
    assert five == Next(Steps(w, id, 4), Advance(id));
    assert Steps(w, id, 6) == Next(five, Advance(id));
    hide Steps;
    if Retained(w.bucket, PairRecord(pair)).None? {
      MovesOn(w, id, 4, Recording(root, Resume), Putting(root, Upgrade));
    } else {
      RecordFits(w, pair, root);
      BootsNext(With(w, id, Recording(root, Resume)), id);
    }
    hide Moved;
    BootsNext(five, id);
  }

  lemma NeverBoots(w: World, id: nat, n: nat)
    requires id in w.boots && Steps(w, id, n) == With(w, id, Refused(Failed))
    ensures Steps(w, id, n + 1) == With(w, id, Refused(Failed))
  {
    MovesOn(w, id, n, Refused(Failed), Refused(Failed));
  }

  /** A boot left to run alone, from its first read on, succeeds exactly when the sealed key retained is the one
      the receipt commits to. */
  lemma ResumesExactly(w: World, id: nat)
    requires Inv(w) && id in w.boots && w.boots[id].phase == Started && Retained(w.bucket, ReceiptKey).Some?
    ensures Steps(w, id, 6).boots[id].phase.Booted? <==> Resumable(w)
    ensures Resumable(w) ==>
              var recorded := Retained(w.bucket, PairRecord(w.boots[id].pair)).Some?;
              Steps(w, id, 6).boots[id].phase ==
                Booted(Retained(w.bucket, ReceiptKey).value.root, if recorded then Resume else Upgrade)
  {
    if Resumable(w) {
      ComesToRecord(w, id);
      hide Steps, BootOk, HoldersApart;
      Finishes(w, id, Retained(w.bucket, ReceiptKey).value.root);
    } else {
      ReadsBoth(w, id);
      var receipt, sealed := Retained(w.bucket, ReceiptKey).value, Retained(w.bucket, SealedKey).value;
      hide Steps, BootOk, HoldersApart;
      MovesOn(w, id, 2, Opening(receipt, sealed), Refused(Failed));
      NeverBoots(w, id, 3);
      NeverBoots(w, id, 4);
      NeverBoots(w, id, 5);
    }
  }

  // ---- genesis ------------------------------------------------------------

  /** Nothing of a history is stored. */
  ghost predicate Unclaimed(w: World) {
    Retained(w.bucket, ReceiptKey).None? && Retained(w.bucket, SealedKey).None? && Retained(w.bucket, AnchorZero).None?
  }

  /** A boot of an unclaimed store up to its lease. */
  lemma LeaseComes(w: World, id: nat, master: Master) returns (next: World)
    requires Inv(w) && id in w.boots && w.boots[id].phase == Started && Unclaimed(w) && master !in w.leases
    ensures next == Next(Next(Next(w, Advance(id)), Advance(id)), Lease(id, master))
    ensures id in next.boots && next.boots[id] == Boot(w.boots[id].pair, Leased(master))
    ensures Retained(next.bucket, AnchorZero).None? && Retained(next.bucket, ReceiptKey).None?
    ensures Retained(next.bucket, SealedKey) == Some(Sealed(master))
    ensures Retained(next.bucket, PairRecord(w.boots[id].pair)).None?
  {
    hide BootOk, HoldersApart;
    assert Retained(w.bucket, PairRecord(w.boots[id].pair)).None?;
    next := Next(Next(Next(w, Advance(id)), Advance(id)), Lease(id, master));
  }

  /** From its lease to its receipt. */
  lemma ReceiptComes(w: World, id: nat, pair: Pair, master: Master, nonce: nat) returns (next: World)
    requires id in w.boots && w.boots[id] == Boot(pair, Leased(master))
    requires Retained(w.bucket, AnchorZero).None? && Retained(w.bucket, ReceiptKey).None?
    requires Retained(w.bucket, PairRecord(pair)).None?
    ensures next == Next(Next(Next(Next(w, Advance(id)), Publish(id, nonce)), Advance(id)), Advance(id))
    ensures var root := StateRoot(Genesis0(master, nonce), master);
            && id in next.boots && next.boots[id] == Boot(pair, Recording(root, Genesis))
            && Retained(next.bucket, AnchorZero) == Some(Anchor(root.genesis))
            && Retained(next.bucket, ReceiptKey) == Some(Receipt(root))
            && Retained(next.bucket, PairRecord(pair)).None?
            && Retained(next.bucket, SealedKey) == Retained(w.bucket, SealedKey)
  {
    hide Put;
    var one := Next(w, Advance(id));
    assert one.boots[id].phase == Creating(master) && one.bucket == w.bucket;
    var two := Next(one, Publish(id, nonce));
    assert two.boots[id].phase == Published(Genesis0(master, nonce));
    var three := Next(two, Advance(id));
    assert three.boots[id].phase.Created? && three.bucket == two.bucket;
    next := Next(three, Advance(id));
  }

  lemma RecordComes(w: World, id: nat, pair: Pair, root: StateRoot) returns (next: World)
    requires id in w.boots && w.boots[id] == Boot(pair, Recording(root, Genesis)) && Retained(w.bucket, PairRecord(pair)).None?
    ensures next == Next(Next(w, Advance(id)), Advance(id))
    ensures id in next.boots && next.boots[id] == Boot(pair, Booted(root, Genesis))
    ensures Retained(next.bucket, PairRecord(pair)) == Some(Record(pair, root))
    ensures forall k :: k != PairRecord(pair) ==> Retained(next.bucket, k) == Retained(w.bucket, k)
  {
    hide Put;
    var one := Next(w, Advance(id));
    assert one.boots[id].phase == Putting(root, Genesis) && one.bucket == w.bucket;
    next := Next(one, Advance(id));
  }

  /** What a boot that founds a history does. */
  function Founding(id: nat, master: Master, nonce: nat): seq<Action> {
    [Advance(id), Advance(id), Lease(id, master)] + [Advance(id), Publish(id, nonce), Advance(id), Advance(id)] + [Advance(id), Advance(id)]
  }

  lemma FoundingRun(w: World, id: nat, master: Master, nonce: nat)
    ensures Run(w, Founding(id, master, nonce)) ==
            var leased := Next(Next(Next(w, Advance(id)), Advance(id)), Lease(id, master));
            var received := Next(Next(Next(Next(leased, Advance(id)), Publish(id, nonce)), Advance(id)), Advance(id));
            Next(Next(received, Advance(id)), Advance(id))
  {
    hide Next;
    var a := [Advance(id), Advance(id), Lease(id, master)];
    Then(w, [], Advance(id));
    Then(w, [] + [Advance(id)], Advance(id));
    Then(w, [] + [Advance(id)] + [Advance(id)], Lease(id, master));
    assert [] + [Advance(id)] + [Advance(id)] + [Lease(id, master)] == a;
    assert Run(w, []) == w;
    hide Run;
    var b := a + [Advance(id), Publish(id, nonce), Advance(id), Advance(id)];
    Then(w, a, Advance(id));
    Then(w, a + [Advance(id)], Publish(id, nonce));
    Then(w, a + [Advance(id)] + [Publish(id, nonce)], Advance(id));
    Then(w, a + [Advance(id)] + [Publish(id, nonce)] + [Advance(id)], Advance(id));
    assert a + [Advance(id)] + [Publish(id, nonce)] + [Advance(id)] + [Advance(id)] == b;
    Then(w, b, Advance(id));
    Then(w, b + [Advance(id)], Advance(id));
    assert b + [Advance(id)] + [Advance(id)] == Founding(id, master, nonce);
  }

  /** A boot that finds nothing stored, and is left to run, founds a history: its key, its anchor 0, its receipt and its
      pair's record are stored, and they are what it boots with. */
  lemma GenesisSucceeds(w: World, id: nat, master: Master, nonce: nat)
    requires Inv(w) && id in w.boots && w.boots[id].phase == Started && Unclaimed(w) && master !in w.leases
    ensures var next, root, pair := Run(w, Founding(id, master, nonce)), StateRoot(Genesis0(master, nonce), master), w.boots[id].pair;
            && id in next.boots && next.boots[id].phase == Booted(root, Genesis)
            && Retained(next.bucket, SealedKey) == Some(Sealed(master))
            && Retained(next.bucket, AnchorZero) == Some(Anchor(root.genesis))
            && Retained(next.bucket, ReceiptKey) == Some(Receipt(root))
            && Retained(next.bucket, PairRecord(pair)) == Some(Record(pair, root))
  {
    hide Inv, Next, Run;
    FoundingRun(w, id, master, nonce);
    var leased := LeaseComes(w, id, master);
    var received := ReceiptComes(leased, id, w.boots[id].pair, master, nonce);
    var next := RecordComes(received, id, w.boots[id].pair, StateRoot(Genesis0(master, nonce), master));
  }

  // ---- a delete marker over the sealed key --------------------------------

  lemma Then(w: World, actions: seq<Action>, next: Action)
    ensures Run(w, actions + [next]) == Next(Run(w, actions), next)
  {
    assert (actions + [next])[..|actions|] == actions;
  }

  ghost predicate At(actions: seq<Action>, zero: Phase, one: Phase, bucket: Bucket<Key, Body>, leases: set<Master>) {
    var w := Run(Empty, actions);
    w.boots == map[0 := Boot(7, zero), 1 := Boot(7, one)] && w.bucket == bucket && w.leases == leases
  }

  lemma BothChoose() returns (actions: seq<Action>)
    ensures At(actions, Chosen, Chosen, map[], {})
  {
    actions := [Start(0, 7)];
    Then(Empty, [], Start(0, 7));
    assert [] + [Start(0, 7)] == actions;
    var all := [Start(1, 7), Advance(0), Advance(0), Advance(1), Advance(1)];
    hide Run;
    Then(Empty, actions, Start(1, 7));
    actions := actions + [Start(1, 7)];
    assert At(actions, Started, Started, map[], {});
    Then(Empty, actions, Advance(0));
    actions := actions + [Advance(0)];
    assert At(actions, ReceiptRead(None), Started, map[], {});
    Then(Empty, actions, Advance(0));
    actions := actions + [Advance(0)];
    assert At(actions, Chosen, Started, map[], {});
    Then(Empty, actions, Advance(1));
    actions := actions + [Advance(1)];
    assert At(actions, Chosen, ReceiptRead(None), map[], {});
    Then(Empty, actions, Advance(1));
    actions := actions + [Advance(1)];
  }

  lemma BothLease() returns (actions: seq<Action>)
    ensures At(actions, Leased(100), Leased(101), map[SealedKey := Slot(Some(Sealed(100)), false)], {100, 101})
  {
    actions := BothChoose();
    hide Run;
    Then(Empty, actions, Lease(0, 100));
    actions := actions + [Lease(0, 100)];
    assert At(actions, Leased(100), Chosen, map[SealedKey := Slot(Some(Sealed(100)), false)], {100});
    Then(Empty, actions, Hidden(SealedKey));
    actions := actions + [Hidden(SealedKey)];
    assert At(actions, Leased(100), Chosen, map[SealedKey := Slot(Some(Sealed(100)), true)], {100});
    Then(Empty, actions, Lease(1, 101));
    actions := actions + [Lease(1, 101)];
    assert {100} + {101} == {100, 101};
  }

  lemma SecondFinishes() returns (actions: seq<Action>)
    ensures var root := StateRoot(Genesis0(101, 5), 101);
            var bucket := map[SealedKey := Slot(Some(Sealed(100)), false),
                              AnchorZero := Slot(Some(Anchor(Genesis0(101, 5))), false),
                              ReceiptKey := Slot(Some(Receipt(root)), false)];
            At(actions, Leased(100), Recording(root, Genesis), bucket, {100, 101})
  {
    actions := BothLease();
    hide Run;
    var genesis := Genesis0(101, 5);
    var bucket := map[SealedKey := Slot(Some(Sealed(100)), false)];
    Then(Empty, actions, Advance(1));
    actions := actions + [Advance(1)];
    assert At(actions, Leased(100), Creating(101), bucket, {100, 101});
    Then(Empty, actions, Publish(1, 5));
    actions := actions + [Publish(1, 5)];
    bucket := bucket[AnchorZero := Slot(Some(Anchor(genesis)), false)];
    assert At(actions, Leased(100), Published(genesis), bucket, {100, 101});
    Then(Empty, actions, Advance(1));
    actions := actions + [Advance(1)];
    assert At(actions, Leased(100), Created(StateRoot(genesis, 101)), bucket, {100, 101});
    Then(Empty, actions, Advance(1));
    actions := actions + [Advance(1)];
  }

  /** A delete marker over the sealed key lets two cold boots pass the lease. If the one whose key was not
      retained publishes anchor 0 first, it finishes its genesis, and then no boot can resume the store. */
  lemma LeaseTakenTwice() returns (actions: seq<Action>)
    ensures var w := Reached(actions);
            && w.leases == {100, 101} && w.adopted != {}
            && Retained(w.bucket, ReceiptKey).Some? && !Resumable(w)
  {
    actions := SecondFinishes();
    hide Run;
    var root := StateRoot(Genesis0(101, 5), 101);
    Then(Empty, actions, Advance(1));
    actions := actions + [Advance(1)];
    assert Run(Empty, actions).boots[1] == Boot(7, Putting(root, Genesis));
    Then(Empty, actions, Advance(1));
    actions := actions + [Advance(1)];
  }

  /** Once a store cannot be resumed, it never can be. */
  lemma {:induction false} StrandedForGood(w: World, actions: seq<Action>)
    requires Inv(w) && Retained(w.bucket, ReceiptKey).Some? && Retained(w.bucket, SealedKey).Some? && !Resumable(w)
    ensures Retained(Run(w, actions).bucket, ReceiptKey) == Retained(w.bucket, ReceiptKey) && !Resumable(Run(w, actions))
  {
    RunKeeps(w, actions);
    RetainedForGood(w, actions, ReceiptKey);
    RetainedForGood(w, actions, SealedKey);
  }

  lemma {:induction false} RetainedForGood(w: World, actions: seq<Action>, key: Key)
    requires Retained(w.bucket, key).Some?
    ensures Retained(Run(w, actions).bucket, key) == Retained(w.bucket, key)
  {
    if actions != [] {
      RetainedForGood(w, actions[..|actions| - 1], key);
    }
  }
}
