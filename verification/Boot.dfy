/** Genesis and boot: many enclaves, crashing anywhere, over one bucket whose host may lay delete markers. */
module Boot {
  import opened Wrappers
  import opened Roots

  /** The runtime and the guest an enclave measured. */
  type Pair = nat

  /** A master secret; what seals it and the keys derived from it stand or fall with it. */
  type Master = nat

  datatype Key = ReceiptKey | SealedKey | AnchorZero | PairRecord(pair: Pair)

  /** What a receipt commits to: which history, and which sealed key. */
  datatype StateRoot = StateRoot(genesis: Genesis0, sealed: Master)

  /** Anchor 0: who signed it, and the nonce that tells it from any other. */
  datatype Genesis0 = Genesis0(signer: Master, nonce: nat)

  datatype Body =
    | Sealed(master: Master)
    | Anchor(genesis: Genesis0)
    | Receipt(root: StateRoot)
    | Record(pair: Pair, root: StateRoot)

  datatype Mode = Genesis | Resume | Upgrade

  datatype Reason = ReceiptWithoutKey | KeyWithoutReceipt | Failed

  /** How far a boot has come. */
  datatype Phase =
    | Started
    | ReceiptRead(seen: Option<Body>)
    | Opening(receipt: Body, sealed: Body)
    | Opened(receipt: Body, root: StateRoot)
    | Chosen
    | Leased(master: Master)
    | Creating(master: Master)
    | Published(genesis: Genesis0)
    | Created(root: StateRoot)
    | Recording(root: StateRoot, mode: Mode)
    | Putting(root: StateRoot, mode: Mode)
    | Contested(root: StateRoot, mode: Mode)
    | Booted(root: StateRoot, mode: Mode)
    | Refused(reason: Reason)

  datatype Boot = Boot(pair: Pair, phase: Phase)

  /** The bucket, the boots under way, every master whose lease went through and every identity a boot ended with. */
  datatype World = World(bucket: Bucket<Key, Body>, boots: map<nat, Boot>, leases: set<Master>, adopted: set<StateRoot>)

  const Empty: World := World(map[], map[], {}, {})

  datatype Action =
    | Start(id: nat, pair: Pair)
    | Lease(id: nat, master: Master)
    | Publish(id: nat, nonce: nat)
    | Advance(id: nat)
    | Crash(id: nat)
    | Hidden(key: Key)

  datatype Move = Move(bucket: Bucket<Key, Body>, phase: Phase)

  function Refuse(bucket: Bucket<Key, Body>): Move {
    Move(bucket, Refused(Failed))
  }

  /** The next thing a boot does: one read or one conditional PUT, and what follows from its answer. */
  function Moved(bucket: Bucket<Key, Body>, pair: Pair, phase: Phase): Move {
    match phase
    case Started => Move(bucket, ReceiptRead(Retained(bucket, ReceiptKey)))
    case ReceiptRead(seen) => Move(bucket, Decided(seen, Retained(bucket, SealedKey)))
    case Opening(receipt, sealed) =>
      // The keys are the sealed master's: an anchor another master signed does not verify.
      var anchor := Retained(bucket, AnchorZero);
      if sealed.Sealed? && anchor.Some? && anchor.value.Anchor? && anchor.value.genesis.signer == sealed.master then
        Move(bucket, Opened(receipt, StateRoot(anchor.value.genesis, sealed.master)))
      else Refuse(bucket)
    case Opened(receipt, root) =>
      if receipt == Receipt(root) then Move(bucket, Recording(root, Resume)) else Refuse(bucket)
    case Leased(master) =>
      if Retained(bucket, AnchorZero).None? then Move(bucket, Creating(master)) else Refuse(bucket)
    case Published(genesis) =>
      if Retained(bucket, AnchorZero) == Some(Anchor(genesis)) then Move(bucket, Created(StateRoot(genesis, genesis.signer)))
      else Refuse(bucket)
    case Created(root) =>
      if PutSucceeds(bucket, ReceiptKey) then Move(Put(bucket, ReceiptKey, Receipt(root)), Recording(root, Genesis))
      else Refuse(bucket)
    case Recording(root, mode) =>
      var found := Retained(bucket, PairRecord(pair));
      if found.None? then Move(bucket, Putting(root, if mode.Genesis? then Genesis else Upgrade))
      else if found.value == Record(pair, root) then Move(bucket, Booted(root, mode))
      else Refuse(bucket)
    case Putting(root, mode) =>
      if PutSucceeds(bucket, PairRecord(pair)) then
        Move(Put(bucket, PairRecord(pair), Record(pair, root)), Booted(root, mode))
      else Move(bucket, Contested(root, mode))
    case Contested(root, mode) =>
      if Retained(bucket, PairRecord(pair)) == Some(Record(pair, root)) then Move(bucket, Booted(root, mode))
      else Refuse(bucket)
    case _ => Move(bucket, phase)
  }

  function Decided(receipt: Option<Body>, sealed: Option<Body>): Phase {
    match (receipt, sealed)
    case (Some(r), Some(s)) => Opening(r, s)
    case (None, None) => Chosen
    case (Some(_), None) => Refused(ReceiptWithoutKey)
    case (None, Some(_)) => Refused(KeyWithoutReceipt)
  }

  function AdvanceBoot(w: World, id: nat): World
    requires id in w.boots
  {
    var boot := w.boots[id];
    var move := Moved(w.bucket, boot.pair, boot.phase);
    w.(bucket := move.bucket,
       boots := w.boots[id := boot.(phase := move.phase)],
       adopted := if move.phase.Booted? then w.adopted + {move.phase.root} else w.adopted)
  }

  /** The genesis lease: a freshly minted key, sealed, put where there is none. */
  function TakeLease(w: World, id: nat, master: Master): World
    requires id in w.boots
  {
    if PutSucceeds(w.bucket, SealedKey) then
      w.(bucket := Put(w.bucket, SealedKey, Sealed(master)),
         boots := w.boots[id := w.boots[id].(phase := Leased(master))],
         leases := w.leases + {master})
    else w.(boots := w.boots[id := w.boots[id].(phase := Refused(Failed))])
  }

  /** Anchor 0, put where there is none; the read-back comes after. */
  function PublishAnchor(w: World, id: nat, nonce: nat): World
    requires id in w.boots && w.boots[id].phase.Creating?
  {
    var genesis := Genesis0(w.boots[id].phase.master, nonce);
    if PutSucceeds(w.bucket, AnchorZero) then
      w.(bucket := Put(w.bucket, AnchorZero, Anchor(genesis)),
         boots := w.boots[id := w.boots[id].(phase := Published(genesis))])
    else w.(boots := w.boots[id := w.boots[id].(phase := Refused(Failed))])
  }

  /** One step of any run. What cannot happen in a world leaves it as it is. */
  function Next(w: World, action: Action): World {
    match action
    case Start(id, pair) => if id in w.boots then w else w.(boots := w.boots[id := Boot(pair, Started)])
    case Lease(id, master) =>
      if id in w.boots && w.boots[id].phase.Chosen? && master !in w.leases then TakeLease(w, id, master) else w
    case Publish(id, nonce) => if id in w.boots && w.boots[id].phase.Creating? then PublishAnchor(w, id, nonce) else w
    case Advance(id) => if id in w.boots then AdvanceBoot(w, id) else w
    case Crash(id) => if id in w.boots then w.(boots := w.boots[id := w.boots[id].(phase := Refused(Failed))]) else w
    case Hidden(key) => w.(bucket := Hide(w.bucket, key))
  }

  function Run(w: World, actions: seq<Action>): World {
    if actions == [] then w else Next(Run(w, actions[..|actions| - 1]), actions[|actions| - 1])
  }

  // ---- what every step keeps ----------------------------------------------

  /** The master a boot of genesis holds before its receipt is written. */
  function Holds(phase: Phase): Option<Master> {
    match phase
    case Leased(m) => Some(m)
    case Creating(m) => Some(m)
    case Published(genesis) => Some(genesis.signer)
    case Created(root) => Some(root.sealed)
    case _ => None
  }

  ghost predicate SignedBy(b: Bucket<Key, Body>, master: Master) {
    Retained(b, AnchorZero).Some? && Retained(b, AnchorZero).value.Anchor? && Retained(b, AnchorZero).value.genesis.signer == master
  }

  /** What is stored follows from what was stored before it: sealed key, then anchor 0, then receipt, then records. */
  ghost predicate StoreOk(w: World) {
    var b := w.bucket;
    && (Retained(b, SealedKey).Some? ==> Retained(b, SealedKey).value.Sealed?)
    && (Retained(b, AnchorZero).Some? ==>
        && Retained(b, SealedKey).Some?
        && Retained(b, AnchorZero).value.Anchor? && Retained(b, AnchorZero).value.genesis.signer in w.leases)
    && (Retained(b, ReceiptKey).Some? ==>
        && Retained(b, ReceiptKey).value.Receipt? && Retained(b, AnchorZero).Some?
        && var g := Retained(b, AnchorZero).value.genesis; Retained(b, ReceiptKey).value.root == StateRoot(g, g.signer))
    && (forall p :: Retained(b, PairRecord(p)).Some? ==>
        && Retained(b, ReceiptKey).Some?
        && Retained(b, PairRecord(p)) == Some(Record(p, Retained(b, ReceiptKey).value.root)))
    && (forall r :: r in w.adopted ==> Retained(b, ReceiptKey) == Some(Receipt(r)))
  }

  ghost predicate BootOk(w: World, boot: Boot) {
    var b := w.bucket;
    && (Holds(boot.phase).Some? ==>
        && Holds(boot.phase).value in w.leases && Retained(b, SealedKey).Some?
        && (Retained(b, ReceiptKey).Some? ==> !SignedBy(b, Holds(boot.phase).value)))
    && match boot.phase
       case ReceiptRead(seen) => seen.Some? ==> Retained(b, ReceiptKey) == seen
       case Opening(receipt, sealed) => Retained(b, ReceiptKey) == Some(receipt) && Retained(b, SealedKey) == Some(sealed)
       case Opened(receipt, root) =>
         Retained(b, ReceiptKey) == Some(receipt) && Retained(b, SealedKey) == Some(Sealed(root.sealed))
       case Published(_) => Retained(b, AnchorZero).Some?
       case Created(root) => root.sealed == root.genesis.signer && Retained(b, AnchorZero) == Some(Anchor(root.genesis))
       case Recording(root, mode) =>
         Retained(b, ReceiptKey) == Some(Receipt(root)) && (!mode.Genesis? ==> Retained(b, SealedKey) == Some(Sealed(root.sealed)))
       case Putting(root, mode) =>
         Retained(b, ReceiptKey) == Some(Receipt(root)) && (!mode.Genesis? ==> Retained(b, SealedKey) == Some(Sealed(root.sealed)))
       case Contested(root, mode) =>
         && Retained(b, ReceiptKey) == Some(Receipt(root))
         && (!mode.Genesis? ==> Retained(b, SealedKey) == Some(Sealed(root.sealed)))
       case Booted(root, mode) =>
         && root in w.adopted && Retained(b, PairRecord(boot.pair)) == Some(Record(boot.pair, root))
         && (!mode.Genesis? ==> Retained(b, SealedKey) == Some(Sealed(root.sealed)))
       case Refused(reason) => reason != ReceiptWithoutKey
       case _ => true
  }

  /** No two boots hold one master. */
  ghost predicate HoldersApart(w: World) {
    forall i, j :: i in w.boots && j in w.boots && i != j && Holds(w.boots[i].phase).Some? ==>
      Holds(w.boots[i].phase) != Holds(w.boots[j].phase)
  }

  ghost predicate Inv(w: World) {
    && StoreOk(w) && HoldersApart(w)
    && forall i :: i in w.boots ==> BootOk(w, w.boots[i])
  }

  /** Nothing retained is ever lost. */
  ghost predicate Keeps(b: Bucket<Key, Body>, after: Bucket<Key, Body>) {
    forall k :: Retained(b, k).Some? ==> Retained(after, k) == Retained(b, k)
  }

  /** A boot stands as it did while others store more, as long as the receipt they write is not for its anchor. */
  lemma BootStands(w: World, next: World, boot: Boot)
    requires BootOk(w, boot) && Keeps(w.bucket, next.bucket) && w.leases <= next.leases && w.adopted <= next.adopted
    requires Holds(boot.phase).Some? && Retained(next.bucket, ReceiptKey).Some? ==>
               !SignedBy(next.bucket, Holds(boot.phase).value)
    ensures BootOk(next, boot)
  {
  }

  // ---- each step ----------------------------------------------------------

  lemma StoreStands(w: World, next: World)
    requires StoreOk(w) && w.leases <= next.leases
    requires forall r :: r in next.adopted ==> r in w.adopted || Retained(w.bucket, ReceiptKey) == Some(Receipt(r))
    requires forall k :: Retained(next.bucket, k) == Retained(w.bucket, k)
    ensures StoreOk(next)
  {
  }

  /** A step that stores nothing and moves one boot. */
  lemma OnlyMoved(w: World, next: World, id: nat)
    requires Inv(w) && id in next.boots && BootOk(next, next.boots[id])
    requires next.leases == w.leases && w.adopted <= next.adopted
    requires forall r :: r in next.adopted ==> r in w.adopted || Retained(w.bucket, ReceiptKey) == Some(Receipt(r))
    requires forall k :: Retained(next.bucket, k) == Retained(w.bucket, k)
    requires next.boots.Keys == w.boots.Keys + {id} && forall i :: i in w.boots && i != id ==> next.boots[i] == w.boots[i]
    requires Holds(next.boots[id].phase).None? || (id in w.boots && Holds(next.boots[id].phase) == Holds(w.boots[id].phase))
    ensures Inv(next)
  {
    StoreStands(w, next);
    forall i | i in next.boots && i != id ensures BootOk(next, next.boots[i]) {
      assert i in w.boots;
      BootStands(w, next, w.boots[i]);
    }
    hide BootOk, StoreOk;
  }

  lemma StartKeeps(w: World, id: nat, pair: Pair)
    requires Inv(w) && id !in w.boots
    ensures Inv(Next(w, Start(id, pair)))
  {
  }

  lemma RefusalKeeps(w: World, next: World, id: nat)
    requires Inv(w) && id in w.boots && next == w.(boots := w.boots[id := w.boots[id].(phase := Refused(Failed))])
    ensures Inv(next)
  {
    assert BootOk(next, next.boots[id]);
    hide BootOk, StoreOk, HoldersApart;
    OnlyMoved(w, next, id);
  }

  lemma HiddenKeeps(w: World, key: Key)
    requires Inv(w)
    ensures Inv(Next(w, Hidden(key)))
  {
    var next := Next(w, Hidden(key));
    StoreStands(w, next);
    forall i | i in next.boots ensures BootOk(next, next.boots[i]) {
      BootStands(w, next, w.boots[i]);
    }
    hide BootOk, StoreOk;
  }

  lemma LeaseKeeps(w: World, id: nat, master: Master)
    requires Inv(w) && id in w.boots && w.boots[id].phase.Chosen? && master !in w.leases
    ensures Inv(Next(w, Lease(id, master)))
  {
    var next := Next(w, Lease(id, master));
    if PutSucceeds(w.bucket, SealedKey) {
      assert StoreOk(next);
      forall i | i in next.boots ensures BootOk(next, next.boots[i]) {
        if i != id {
          assert BootOk(w, w.boots[i]);
          BootStands(w, next, w.boots[i]);
        }
      }
      forall i, j | i in next.boots && j in next.boots && i != j && Holds(next.boots[i].phase).Some?
        ensures Holds(next.boots[i].phase) != Holds(next.boots[j].phase)
      {
        assert BootOk(w, w.boots[i]) && BootOk(w, w.boots[j]);
      }
      hide BootOk, StoreOk;
    } else {
      hide Inv;
      RefusalKeeps(w, next, id);
    }
  }

  lemma PublishKeeps(w: World, id: nat, nonce: nat)
    requires Inv(w) && id in w.boots && w.boots[id].phase.Creating?
    ensures Inv(Next(w, Publish(id, nonce)))
  {
    var next := Next(w, Publish(id, nonce));
    if PutSucceeds(w.bucket, AnchorZero) {
      assert BootOk(w, w.boots[id]);
      assert StoreOk(next);
      forall i | i in next.boots ensures BootOk(next, next.boots[i]) {
        assert BootOk(w, w.boots[i]);
        if i != id {
          BootStands(w, next, w.boots[i]);
        }
      }
      hide BootOk, StoreOk;
    } else {
      hide Inv;
      RefusalKeeps(w, next, id);
    }
  }

  /** The receipt goes where there was none, put by the boot whose master signed the retained anchor 0, and it
      commits to that anchor and that master. */
  lemma ReceiptKeeps(w: World, id: nat)
    requires Inv(w) && id in w.boots && w.boots[id].phase.Created?
    ensures Inv(Next(w, Advance(id)))
    ensures var root := w.boots[id].phase.root;
            && Retained(w.bucket, ReceiptKey).None? && Retained(Next(w, Advance(id)).bucket, ReceiptKey) == Some(Receipt(root))
            && Retained(w.bucket, AnchorZero) == Some(Anchor(root.genesis)) && root.genesis.signer == root.sealed
            && Holds(w.boots[id].phase) == Some(root.genesis.signer)
  {
    var next := Next(w, Advance(id));
    assert BootOk(w, w.boots[id]);
    assert Retained(w.bucket, ReceiptKey).None?;
    assert StoreOk(next);
    assert BootOk(next, next.boots[id]);
    forall i | i in next.boots && i != id ensures BootOk(next, next.boots[i]) {
      assert BootOk(w, w.boots[i]);
      assert Holds(w.boots[i].phase).Some? ==> Holds(w.boots[id].phase) != Holds(w.boots[i].phase);
      BootStands(w, next, w.boots[i]);
    }
    hide BootOk, StoreOk;
  }

  lemma RecordKeeps(w: World, id: nat)
    requires Inv(w) && id in w.boots && w.boots[id].phase.Putting?
    ensures Inv(Next(w, Advance(id)))
  {
    var next := Next(w, Advance(id));
    assert BootOk(w, w.boots[id]);
    if PutSucceeds(w.bucket, PairRecord(w.boots[id].pair)) {
      assert StoreOk(next);
      forall i | i in next.boots ensures BootOk(next, next.boots[i]) {
        assert BootOk(w, w.boots[i]);
        if i != id {
          BootStands(w, next, w.boots[i]);
        }
      }
      hide BootOk, StoreOk;
    } else {
      assert BootOk(next, next.boots[id]);
      hide BootOk, StoreOk, HoldersApart;
      OnlyMoved(w, next, id);
    }
  }

  /** Every other step only reads: what it moves the boot to is as the store has it. */
  lemma MoveOk(w: World, next: World, id: nat)
    requires StoreOk(w) && id in w.boots && BootOk(w, w.boots[id])
    requires !w.boots[id].phase.Created? && !w.boots[id].phase.Putting?
    requires next == AdvanceBoot(w, id)
    ensures next.bucket == w.bucket && next.leases == w.leases && BootOk(next, next.boots[id])
    ensures Holds(next.boots[id].phase).None? || Holds(next.boots[id].phase) == Holds(w.boots[id].phase)
    ensures forall r :: r in next.adopted ==> r in w.adopted || Retained(w.bucket, ReceiptKey) == Some(Receipt(r))
  {
  }

  lemma ReadKeeps(w: World, id: nat)
    requires Inv(w) && id in w.boots && !w.boots[id].phase.Created? && !w.boots[id].phase.Putting?
    ensures Inv(Next(w, Advance(id)))
  {
    var next := Next(w, Advance(id));
    hide BootOk, StoreOk, HoldersApart, Moved, Holds;
    assert BootOk(w, w.boots[id]);
    MoveOk(w, next, id);
    OnlyMoved(w, next, id);
  }

  /** Nothing else ever puts a receipt. */
  lemma ReceiptOnlyThere(w: World, action: Action)
    requires Retained(Next(w, action).bucket, ReceiptKey) != Retained(w.bucket, ReceiptKey)
    ensures action.Advance? && action.id in w.boots && w.boots[action.id].phase.Created?
  {
  }

  lemma NextKeeps(w: World, action: Action)
    requires Inv(w)
    ensures Inv(Next(w, action))
  {
    hide Inv;
    match action
    case Start(id, pair) =>
      if id !in w.boots {
        StartKeeps(w, id, pair);
      }
    case Lease(id, master) =>
      if id in w.boots && w.boots[id].phase.Chosen? && master !in w.leases {
        LeaseKeeps(w, id, master);
      }
    case Publish(id, nonce) =>
      if id in w.boots && w.boots[id].phase.Creating? {
        PublishKeeps(w, id, nonce);
      }
    case Advance(id) =>
      if id in w.boots {
        if w.boots[id].phase.Created? {
          ReceiptKeeps(w, id);
        } else if w.boots[id].phase.Putting? {
          RecordKeeps(w, id);
        } else {
          ReadKeeps(w, id);
        }
      }
    case Crash(id) =>
      if id in w.boots {
        RefusalKeeps(w, Next(w, action), id);
      }
    case Hidden(key) => HiddenKeeps(w, key);
  }
}
