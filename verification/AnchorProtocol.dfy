/** One pool, its anchor chain, and enclaves that run one at a time, crash at any step and are
    restarted on whatever disk the host presents. */
module AnchorProtocol {
  import opened Wrappers
  import opened Anchors

  type Write = bytes

  datatype Version = Version(txg: nat, guid: nat, marker: Option<Marker<Digest>>, wrote: seq<Write>)

  /** A synced pool state, as the history of versions that led to it. One state descends from another
      exactly when the other's history is a prefix of its own. */
  type Line = seq<Version>

  function Last(line: Line): Version
    requires line != []
  {
    line[|line| - 1]
  }

  /** Everything written in a pool state, oldest first. */
  function Log(line: Line): seq<Write> {
    if line == [] then [] else Log(line[..|line| - 1]) + Last(line).wrote
  }

  /** How far the anchor in progress has got. `covered` is what had been written when it began. */
  datatype Phase =
    | Idle
    | Unanchored(covered: seq<Write>)
    | Marked(covered: seq<Write>, nonce: bytes, from: Line)
    | Sealed(covered: seq<Write>, anchor: Anchor<Digest>, from: Line, at: Line)
    | Landed(covered: seq<Write>, anchor: Anchor<Digest>)

  /** A live enclave. `loaded` is how long the line was that it imported, none of which the txg table it reads shows;
      a pool just created has a table from its start. */
  datatype Session = Session(line: Line, dirty: seq<Write>, newest: Newest, phase: Phase, loaded: nat)

  /** What outlives an enclave. `synced` is every state the disk ever held, `anchors` the retained
      chain. The last three record history: nonces drawn, the state each anchor was taken at, and what
      has been acknowledged. */
  datatype World = World(
    id: PoolIdentity,
    synced: set<Line>,
    anchors: seq<Anchor<Digest>>,
    nonces: set<bytes>,
    named: seq<Line>,
    acked: seq<Write>)

  datatype State = State(world: World, session: Option<Session>)

  datatype Action =
    | Create(guid: nat, txg: nat)
    | Boot(presented: Line)
    | WriteData(write: Write)
    | Background(count: nat, gap: nat)
    | Sync(wrote: bool, gap: nat)
    | SetMarker(nonce: bytes, gap: nat)
    | Resync(wrote: bool, gap: nat)
    | PutLands
    | ReadBack
    | Fail
    | Crash

  function Init(id: PoolIdentity): State {
    State(World(id, {}, [], {}, [], []), None)
  }

  function Tip(w: World): Anchor<Digest>
    requires w.anchors != []
  {
    w.anchors[|w.anchors| - 1]
  }

  /** The checks of opening a pool, with the kernel reporting the txg it loaded. */
  predicate Opens(w: World, line: Line) {
    && w.anchors != [] && line != []
    && (Tip(w).num > 0 ==> |w.anchors| > 1 && Tip(w).prev == Of(w.anchors[|w.anchors| - 2]))
    && Admits(Tip(w), Of(Tip(w)), Some(Last(line).txg), Last(line).marker, Last(line).guid)
  }

  /** The version a txg makes that puts the first `count` dirty writes on the disk. */
  function Txg(live: Session, count: nat, gap: nat, marker: Option<Marker<Digest>>): Version
    requires live.line != [] && count <= |live.dirty|
  {
    var end := Last(live.line);
    Version(end.txg + 1 + gap, end.guid, marker, live.dirty[..count])
  }

  function Grown(live: Session, count: nat, v: Version): Session
    requires count <= |live.dirty|
  {
    live.(line := live.line + [v], dirty := live.dirty[count..])
  }

  function Added(w: World, line: Line, v: Version): World {
    w.(synced := w.synced + {line + [v]})
  }

  /** A txg that leaves the marker as it was. */
  function Synced(w: World, live: Session, count: nat, gap: nat): State
    requires live.line != [] && count <= |live.dirty|
  {
    var v := Txg(live, count, gap, Last(live.line).marker);
    State(Added(w, live.line, v), Some(Grown(live, count, v)))
  }

  /** A pool sync writes everything dirty, and makes no txg at all if nothing changed. */
  predicate CanFlush(live: Session, wrote: bool) {
    live.dirty != [] ==> wrote
  }

  function Flushed(w: World, live: Session, wrote: bool, gap: nat): (s: State)
    requires live.line != [] && CanFlush(live, wrote)
    ensures s.session.Some? && s.session.value.line != [] && s.session.value.dirty == []
  {
    if wrote then Synced(w, live, |live.dirty|, gap) else State(w, Some(live))
  }

  function NextNum(newest: Newest): nat {
    if newest.At? then newest.anchor.num + 1 else 0
  }

  function PrevDigest(newest: Newest): Digest {
    if newest.At? then Of(newest.anchor) else Zero
  }

  function NextMarker(newest: Newest, nonce: bytes): Marker<Digest> {
    Marker(NextNum(newest), nonce, PrevDigest(newest))
  }

  /** The outcome of a step, or `None` where the code cannot take it. */
  function Step(s: State, a: Action): Option<State> {
    match (a, s.session)
    case (Create(guid, txg), None) =>
      if s.world.anchors != [] then None
      else Some(Created(s.world, guid, txg))
    case (Boot(line), None) =>
      if line !in s.world.synced || !Opens(s.world, line) then None
      else Some(State(s.world, Some(Session(line, [], At(Tip(s.world)), Idle, |line|))))
    case (Crash, Some(_)) => Some(State(s.world, None))
    case (_, Some(live)) => if live.line == [] then None else LiveStep(s.world, live, a)
    case _ => None
  }

  function Created(w: World, guid: nat, txg: nat): State {
    var line := [Version(txg, guid, None, [])];
    State(w.(synced := w.synced + {line}), Some(Session(line, [], Unopened, Unanchored([]), 0)))
  }

  function LiveStep(w: World, live: Session, a: Action): Option<State>
    requires live.line != []
  {
    match (a, live.phase)
    case (WriteData(data), _) => Some(State(w, Some(live.(dirty := live.dirty + [data]))))
    case (Background(count, gap), _) => if count > |live.dirty| then None else Some(Synced(w, live, count, gap))
    case (Sync(wrote, gap), Idle) =>
      if !live.newest.At? || !CanFlush(live, wrote) then None else Some(FirstSync(w, live, wrote, gap))
    case (SetMarker(nonce, gap), Unanchored(covered)) =>
      if nonce in w.nonces then None else Some(MarkerSet(w, live, covered, nonce, gap))
    case (Resync(wrote, gap), Marked(covered, nonce, from)) =>
      if !CanFlush(live, wrote) then None else Some(SecondSync(w, live, covered, nonce, from, wrote, gap))
    case (PutLands, Sealed(covered, anchor, from, at)) =>
      if anchor.num != |w.anchors| then None else Some(Published(w, live, covered, anchor, at))
    case (ReadBack, Landed(covered, anchor)) =>
      if anchor.num >= |w.anchors| || w.anchors[anchor.num] != anchor then None
      else Some(State(w.(acked := covered), Some(live.(newest := At(anchor), phase := Idle))))
    // A failed first sync changes nothing; any later failure stops anchoring for good.
    case (Fail, Idle) => Some(State(w, Some(live)))
    case (Fail, _) => Some(State(w, Some(Halted(live))))
    case _ => None
  }

  function Halted(live: Session): Session {
    live.(newest := Stopped, phase := Idle)
  }

  /** Sync, and stop there if nothing reached the disk since the newest anchor. If nothing has reached it since the
      import the table shows no txg to compare, and the call fails with nothing changed. */
  function FirstSync(w: World, live: Session, wrote: bool, gap: nat): State
    requires live.line != [] && live.newest.At? && CanFlush(live, wrote)
  {
    var s := Flushed(w, live, wrote, gap);
    var next := s.session.value;
    if |next.line| == live.loaded then State(s.world, Some(next))
    else if Last(next.line).txg == live.newest.anchor.txg then
      State(s.world.(acked := Log(next.line)), Some(next))
    else
      State(s.world, Some(next.(phase := Unanchored(Log(next.line)))))
  }

  /** Setting the marker is a sync task: back once everything written before it is on the disk. */
  function MarkerSet(w: World, live: Session, covered: seq<Write>, nonce: bytes, gap: nat): State
    requires live.line != []
  {
    var v := Txg(live, |live.dirty|, gap, Some(NextMarker(live.newest, nonce)));
    var next := Grown(live, |live.dirty|, v);
    State(Added(w.(nonces := w.nonces + {nonce}), live.line, v), Some(next.(phase := Marked(covered, nonce, next.line))))
  }

  /** Sync again: the txg that reached is the one the anchor names. */
  function SecondSync(w: World, live: Session, covered: seq<Write>, nonce: bytes, from: Line, wrote: bool, gap: nat): State
    requires live.line != [] && CanFlush(live, wrote)
  {
    var s := Flushed(w, live, wrote, gap);
    var next := s.session.value;
    var end := Last(next.line);
    if live.newest.At? && end.txg <= live.newest.anchor.txg then State(s.world, Some(Halted(next)))
    else
      var anchor := Anchor(NextNum(live.newest), PrevDigest(live.newest), w.id, end.guid, end.txg, nonce);
      State(s.world, Some(next.(phase := Sealed(covered, anchor, from, next.line))))
  }

  function Published(w: World, live: Session, covered: seq<Write>, anchor: Anchor<Digest>, at: Line): State {
    State(w.(anchors := w.anchors + [anchor], named := w.named + [at]),
          Some(live.(phase := Landed(covered, anchor))))
  }

  /** A whole run. */
  function Run(id: PoolIdentity, actions: seq<Action>): Option<State> {
    if actions == [] then Some(Init(id))
    else
      var before := Run(id, actions[..|actions| - 1]);
      if before.None? then None else Step(before.value, actions[|actions| - 1])
  }

  // ---- lines --------------------------------------------------------------

  predicate LineOk(line: Line) {
    && line != []
    && (forall i, j :: 0 <= i < j < |line| ==> line[i].txg < line[j].txg)
    && (forall i :: 0 <= i < |line| ==> line[i].guid == line[0].guid)
  }

  lemma {:induction false} LogMonotone(a: Line, b: Line)
    requires a <= b
    ensures Log(a) <= Log(b)
    decreases |b|
  {
    if a != b {
      assert a <= b[..|b| - 1];
      LogMonotone(a, b[..|b| - 1]);
    } else {
      assert a == b;
    }
  }

  /** On one line, a state at or past another's txg descends from it. */
  lemma TxgOrdersLine(line: Line, a: Line, b: Line)
    requires LineOk(line) && a <= line && b <= line && a != [] && b != []
    requires Last(b).txg >= Last(a).txg
    ensures a <= b
  {
    assert Last(a) == line[|a| - 1] && Last(b) == line[|b| - 1];
    assert |a| <= |b|;
  }

  // ---- the invariant ------------------------------------------------------

  predicate NoncesDrawn(w: World) {
    forall l: Line, i :: l in w.synced && 0 <= i < |l| && l[i].marker.Some? ==> l[i].marker.value.nonce in w.nonces
  }

  predicate ChainOk(w: World) {
    && |w.named| == |w.anchors|
    && (w.anchors != [] ==> w.anchors[0].prev == Zero)
    && (forall j, k :: 0 <= j < |w.anchors| && 0 <= k < |w.anchors| && k == j + 1 ==> w.anchors[k].prev == Of(w.anchors[j]))
    && (forall k :: 0 <= k < |w.anchors| ==>
         w.anchors[k].num == k && w.anchors[k].id == w.id && w.anchors[k].nonce in w.nonces)
    && (forall k :: 0 <= k < |w.anchors| ==> w.named[k] in w.synced && Names(w.anchors[k], w.named[k]))
  }

  /** The anchor was taken at this state. */
  predicate Names(anchor: Anchor<Digest>, line: Line) {
    && line != []
    && Last(line).txg == anchor.txg
    && Last(line).guid == anchor.guid
    && Last(line).marker == Some(MarkerOf(anchor))
  }

  /** Each anchored state descends from every anchored state before it. */
  predicate NamedInLine(w: World)
    requires |w.named| == |w.anchors|
  {
    forall j, k :: 0 <= j <= k < |w.named| ==> w.named[j] <= w.named[k]
  }

  /** A state holding the marker of anchor n+1 names anchor n and descends from its state. */
  predicate MarkersNamePredecessor(w: World)
    requires |w.named| == |w.anchors|
  {
    forall l: Line :: l in w.synced && l != [] && Last(l).marker.Some? ==> NamesPredecessor(w, l, Last(l).marker.value)
  }

  predicate NamesPredecessor(w: World, l: Line, m: Marker<Digest>)
    requires |w.named| == |w.anchors|
  {
    && m.num <= |w.anchors|
    && m.prev == (if m.num == 0 then Zero else Of(w.anchors[m.num - 1]))
    && (m.num > 0 ==> w.named[m.num - 1] <= l)
  }

  /** A state holding a published anchor's marker, no older than it, descends from its state. */
  predicate MarkersPinState(w: World)
    requires |w.named| == |w.anchors|
  {
    forall k, l: Line :: 0 <= k < |w.anchors| && l in w.synced && l != []
                   && Last(l).marker == Some(MarkerOf(w.anchors[k])) && Last(l).txg >= w.anchors[k].txg
      ==> w.named[k] <= l
  }

  /** Whatever descends from the newest anchored state still carries a marker that says so. */
  predicate DescendantsMarked(w: World)
    requires |w.named| == |w.anchors|
  {
    w.anchors != [] ==>
      forall l: Line :: l in w.synced && w.named[|w.named| - 1] <= l && l != [] ==>
        && Last(l).marker.Some?
        && (Last(l).marker.value == MarkerOf(Tip(w)) || IsSuccessor(Last(l).marker.value, Tip(w), Of(Tip(w))))
  }

  /** The states carrying a marker no anchor has been published for yet are one stretch of the live line. */
  predicate FreshStretch(w: World, live: Session, marker: Marker<Digest>, from: Line) {
    && from != [] && from <= live.line
    && marker.nonce in w.nonces
    && Last(live.line).marker == Some(marker)
    && (forall l: Line :: l in w.synced && l != [] ==> (Last(l).marker == Some(marker) <==> from <= l))
    && (forall l: Line :: l in w.synced && from <= l ==> l <= live.line)
  }

  predicate PhaseOk(w: World, live: Session)
    requires |w.named| == |w.anchors|
  {
    match live.phase
    case Idle => true
    case Unanchored(covered) => !live.newest.Stopped? && covered <= Log(live.line) && w.acked <= covered
    case Marked(covered, nonce, from) =>
      && !live.newest.Stopped? && w.acked <= covered && covered <= Log(from)
      && FreshStretch(w, live, NextMarker(live.newest, nonce), from)
    case Sealed(covered, anchor, from, at) =>
      && !live.newest.Stopped? && w.acked <= covered && covered <= Log(at)
      && MarkerOf(anchor) == NextMarker(live.newest, anchor.nonce) && anchor.id == w.id
      && FreshStretch(w, live, MarkerOf(anchor), from)
      && from <= at <= live.line && at in w.synced && Names(anchor, at)
    case Landed(covered, anchor) =>
      && w.anchors != [] && anchor == Tip(w)
      && w.acked <= covered && covered <= Log(w.named[|w.named| - 1])
  }

  predicate SessionOk(w: World, live: Session)
    requires |w.named| == |w.anchors|
  {
    && live.line in w.synced && live.line != [] && live.loaded <= |live.line|
    && (w.anchors != [] ==> w.named[|w.named| - 1] <= live.line)
    && (!live.phase.Landed? && live.newest.At? ==> w.anchors != [] && live.newest.anchor == Tip(w))
    && (!live.phase.Landed? && live.newest.Unopened? ==> w.anchors == [])
    && PhaseOk(w, live)
  }

  predicate AckedKept(w: World)
    requires |w.named| == |w.anchors|
  {
    if w.anchors == [] then w.acked == [] else w.acked <= Log(w.named[|w.named| - 1])
  }

  /** What the set of states, the chain and the acknowledged writes satisfy between them. */
  predicate Core(w: World)
    ensures Core(w) ==> |w.named| == |w.anchors|
  {
    && (forall l: Line :: l in w.synced ==> LineOk(l))
    && NoncesDrawn(w) && ChainOk(w) && NamedInLine(w)
    && MarkersNamePredecessor(w) && MarkersPinState(w) && DescendantsMarked(w)
    && AckedKept(w)
  }

  predicate Inv(s: State) {
    Core(s.world) && (s.session.Some? ==> SessionOk(s.world, s.session.value))
  }

  // ---- admission is exactly descent ---------------------------------------

  lemma AdmittedDescends(w: World, line: Line)
    requires ChainOk(w) && MarkersNamePredecessor(w) && MarkersPinState(w)
    requires line in w.synced && Opens(w, line)
    ensures w.named[|w.named| - 1] <= line
  {
    var k := |w.anchors| - 1;
    var m := Last(line).marker.value;
    assert w.anchors[k].num == k;
    if m != MarkerOf(Tip(w)) {
      assert NamesPredecessor(w, line, m);
    }
  }

  lemma DescendantAdmitted(w: World, line: Line)
    requires LineOk(line) && ChainOk(w) && DescendantsMarked(w)
    requires line in w.synced && w.anchors != [] && w.named[|w.named| - 1] <= line
    ensures Opens(w, line)
  {
    var k := |w.anchors| - 1;
    assert Names(w.anchors[k], w.named[k]) && w.anchors[k].num == k;
    assert Last(w.named[k]) == line[|w.named[k]| - 1];
    assert k > 0 ==> w.anchors[k].prev == Of(w.anchors[k - 1]);
  }

  // ---- a new state on the live line ---------------------------------------

  /** The marker of a new state: the one its parent held, or that of the anchor after the newest. */
  predicate MarkerFollows(w: World, line: Line, marker: Option<Marker<Digest>>)
    requires line != []
  {
    || marker == Last(line).marker
    || (marker.Some? && marker.value.num == |w.anchors|
        && marker.value.prev == (if w.anchors == [] then Zero else Of(Tip(w))))
  }

  predicate OnTip(w: World, line: Line) {
    && line in w.synced && line != []
    && |w.named| == |w.anchors|
    && (w.anchors != [] ==> w.named[|w.named| - 1] <= line)
  }

  lemma AddedLineOk(line: Line, v: Version)
    requires LineOk(line) && v.txg > Last(line).txg && v.guid == Last(line).guid
    ensures LineOk(line + [v])
  {
  }

  lemma AddedNonces(w: World, line: Line, v: Version)
    requires NoncesDrawn(w) && line in w.synced && (v.marker.Some? ==> v.marker.value.nonce in w.nonces)
    ensures NoncesDrawn(Added(w, line, v))
  {
  }

  lemma AddedPredecessor(w: World, line: Line, v: Version)
    requires OnTip(w, line) && MarkersNamePredecessor(w) && MarkerFollows(w, line, v.marker)
    ensures MarkersNamePredecessor(Added(w, line, v))
  {
  }

  lemma AddedPin(w: World, line: Line, v: Version)
    requires OnTip(w, line) && NamedInLine(w) && MarkersPinState(w)
    ensures MarkersPinState(Added(w, line, v))
  {
  }

  lemma AddedDescendants(w: World, line: Line, v: Version)
    requires ChainOk(w) && OnTip(w, line) && DescendantsMarked(w) && MarkerFollows(w, line, v.marker)
    ensures DescendantsMarked(Added(w, line, v))
  {
  }

  lemma AddedChain(w: World, line: Line, v: Version)
    requires ChainOk(w) && NamedInLine(w) && AckedKept(w)
    ensures var w' := Added(w, line, v); ChainOk(w') && NamedInLine(w') && AckedKept(w')
  {
  }

  lemma AddedCore(w: World, line: Line, v: Version)
    requires Core(w) && OnTip(w, line) && MarkerFollows(w, line, v.marker)
    requires v.txg > Last(line).txg && v.guid == Last(line).guid
    requires v.marker.Some? ==> v.marker.value.nonce in w.nonces
    ensures Core(Added(w, line, v))
  {
    hide NoncesDrawn, ChainOk, NamedInLine, AckedKept, MarkersNamePredecessor, MarkersPinState, DescendantsMarked;
    AddedLineOk(line, v);
    AddedChain(w, line, v);
    AddedNonces(w, line, v);
    AddedPredecessor(w, line, v);
    AddedPin(w, line, v);
    AddedDescendants(w, line, v);
  }

  // ---- every step keeps the invariant -------------------------------------

  lemma LogOfGrown(line: Line, v: Version)
    ensures Log(line + [v]) == Log(line) + v.wrote
  {
    assert (line + [v])[..|line + [v]| - 1] == line;
  }

  /** A fresh stretch stays one when its line grows under the same marker. */
  lemma StretchGrows(w: World, live: Session, marker: Marker<Digest>, from: Line, v: Version, live': Session)
    requires live.line in w.synced && live.line != [] && FreshStretch(w, live, marker, from)
    requires v.marker == Last(live.line).marker && live'.line == live.line + [v]
    ensures FreshStretch(Added(w, live.line, v), live', marker, from)
  {
  }

  lemma SyncedCore(w: World, live: Session, count: nat, gap: nat)
    requires Core(w) && OnTip(w, live.line) && count <= |live.dirty|
    ensures Core(Synced(w, live, count, gap).world)
  {
    assert live.line[|live.line| - 1].marker == Last(live.line).marker;
    AddedCore(w, live.line, Txg(live, count, gap, Last(live.line).marker));
  }

  lemma SyncedSession(w: World, live: Session, count: nat, gap: nat)
    requires |w.named| == |w.anchors| && SessionOk(w, live) && count <= |live.dirty|
    ensures var s := Synced(w, live, count, gap);
            && SessionOk(s.world, s.session.value)
            && live.line <= s.session.value.line
            && Log(s.session.value.line) == Log(live.line) + live.dirty[..count]
  {
    var v := Txg(live, count, gap, Last(live.line).marker);
    var s := Synced(w, live, count, gap);
    var next := s.session.value;
    LogOfGrown(live.line, v);
    assert live.line <= next.line;
    assert PhaseOk(s.world, next) by {
      match live.phase
      case Marked(_, nonce, from) => StretchGrows(w, live, NextMarker(live.newest, nonce), from, v, next);
      case Sealed(_, anchor, from, at) => StretchGrows(w, live, MarkerOf(anchor), from, v, next);
      case _ =>
    }
  }

  lemma FlushedKeeps(w: World, live: Session, wrote: bool, gap: nat)
    requires Core(w) && SessionOk(w, live) && CanFlush(live, wrote)
    ensures var s := Flushed(w, live, wrote, gap);
            && Core(s.world) && SessionOk(s.world, s.session.value)
            && live.line <= s.session.value.line
            && Log(s.session.value.line) == Log(live.line) + live.dirty
  {
    hide Core, PhaseOk;
    if wrote {
      SyncedCore(w, live, |live.dirty|, gap);
      SyncedSession(w, live, |live.dirty|, gap);
      assert live.dirty[..|live.dirty|] == live.dirty;
    } else {
      assert live.dirty == [];
    }
  }

  lemma CreatedKeeps(w: World, guid: nat, txg: nat)
    requires Core(w) && w.anchors == []
    ensures Inv(Created(w, guid, txg))
  {
  }

  lemma BootKeeps(w: World, line: Line)
    requires Core(w) && line in w.synced && Opens(w, line)
    ensures SessionOk(w, Session(line, [], At(Tip(w)), Idle, |line|))
  {
    AdmittedDescends(w, line);
  }

  /** If nothing has reached the disk since the newest anchor, the state is the one it was taken at. */
  lemma SameTxgSameState(w: World, live: Session)
    requires LineOk(live.line) && ChainOk(w) && SessionOk(w, live) && live.phase.Idle? && live.newest.At?
    requires Last(live.line).txg == live.newest.anchor.txg
    ensures live.line == w.named[|w.named| - 1]
  {
  }

  lemma AckedOnLine(w: World, line: Line)
    requires |w.named| == |w.anchors| && AckedKept(w) && OnTip(w, line) && w.anchors != []
    ensures w.acked <= Log(line)
  {
    LogMonotone(w.named[|w.named| - 1], line);
  }

  predicate SameStates(w: World, w': World) {
    && w'.synced == w.synced && w'.anchors == w.anchors && w'.named == w.named && w'.id == w.id
    && w.nonces <= w'.nonces
  }

  lemma FrameChain(w: World, w': World)
    requires SameStates(w, w') && ChainOk(w) && NoncesDrawn(w)
    ensures ChainOk(w') && NoncesDrawn(w')
  {
  }

  lemma FrameMarkers(w: World, w': World)
    requires SameStates(w, w') && |w.named| == |w.anchors|
    requires MarkersNamePredecessor(w) && MarkersPinState(w) && DescendantsMarked(w)
    ensures MarkersNamePredecessor(w') && MarkersPinState(w') && DescendantsMarked(w')
  {
  }

  /** Drawing a nonce or acknowledging more leaves the states and the chain as they are. */
  lemma FrameCore(w: World, w': World)
    requires Core(w) && SameStates(w, w') && AckedKept(w')
    ensures Core(w')
  {
    assert ChainOk(w') && NoncesDrawn(w') by { FrameChain(w, w'); }
    FrameMarkers(w, w');
  }

  /** The short way out: nothing to anchor, so everything written is already covered. */
  lemma CoveredAlready(w: World, live: Session)
    requires Core(w) && SessionOk(w, live) && live.phase.Idle? && live.newest.At?
    requires Last(live.line).txg == live.newest.anchor.txg
    ensures Inv(State(w.(acked := Log(live.line)), Some(live)))
  {
    SameTxgSameState(w, live);
    FrameCore(w, w.(acked := Log(live.line)));
  }

  lemma UnanchoredOk(w: World, live: Session)
    requires |w.named| == |w.anchors| && SessionOk(w, live) && live.phase.Idle? && live.newest.At?
    requires w.acked <= Log(live.line)
    ensures SessionOk(w, live.(phase := Unanchored(Log(live.line))))
  {
  }

  lemma FirstSyncKeeps(w: World, live: Session, wrote: bool, gap: nat)
    requires Core(w) && SessionOk(w, live) && live.phase.Idle? && live.newest.At? && CanFlush(live, wrote)
    ensures Inv(FirstSync(w, live, wrote, gap))
    ensures w.acked <= FirstSync(w, live, wrote, gap).world.acked
  {
    FlushedKeeps(w, live, wrote, gap);
    var s := Flushed(w, live, wrote, gap);
    var next := s.session.value;
    assert s.world.acked == w.acked;
    assert s.world.acked <= Log(next.line) by { AckedOnLine(s.world, next.line); }
    if |next.line| == live.loaded {
    } else if Last(next.line).txg == live.newest.anchor.txg {
      CoveredAlready(s.world, next);
    } else {
      UnanchoredOk(s.world, next);
    }
  }

  /** A marker with a fresh nonce starts a stretch of its own. */
  lemma FreshMarker(w: World, line: Line, v: Version, live': Session)
    requires Core(w) && line in w.synced && line != [] && live'.line == line + [v]
    requires v.marker.Some? && v.marker.value.nonce !in w.nonces
    ensures var w' := Added(w.(nonces := w.nonces + {v.marker.value.nonce}), line, v);
            FreshStretch(w', live', v.marker.value, live'.line)
  {
  }

  lemma MarkerSetCore(w: World, live: Session, nonce: bytes, v: Version)
    requires Core(w) && OnTip(w, live.line) && nonce !in w.nonces
    requires !live.newest.Stopped? && (live.newest.At? <==> w.anchors != []) && (live.newest.At? ==> live.newest.anchor == Tip(w))
    requires v.marker == Some(NextMarker(live.newest, nonce))
    requires v.txg > Last(live.line).txg && v.guid == Last(live.line).guid
    ensures Core(Added(w.(nonces := w.nonces + {nonce}), live.line, v))
  {
    var drawn := w.(nonces := w.nonces + {nonce});
    FrameCore(w, drawn);
    assert live.newest.At? ==> w.anchors[|w.anchors| - 1].num == |w.anchors| - 1;
    AddedCore(drawn, live.line, v);
  }

  lemma MarkerSetKeeps(w: World, live: Session, covered: seq<Write>, nonce: bytes, gap: nat)
    requires Core(w) && SessionOk(w, live) && live.phase == Unanchored(covered) && nonce !in w.nonces
    ensures Inv(MarkerSet(w, live, covered, nonce, gap))
  {
    hide Core;
    var v := Txg(live, |live.dirty|, gap, Some(NextMarker(live.newest, nonce)));
    var s := MarkerSet(w, live, covered, nonce, gap);
    var next := s.session.value;
    assert Core(s.world) by { MarkerSetCore(w, live, nonce, v); }
    assert SessionOk(s.world, next) by {
      FreshMarker(w, live.line, v, next);
      LogOfGrown(live.line, v);
      assert live.line <= next.line;
    }
  }

  lemma HaltedOk(w: World, live: Session)
    requires |w.named| == |w.anchors| && SessionOk(w, live)
    ensures SessionOk(w, Halted(live))
  {
  }

  lemma SealedOk(w: World, next: Session, covered: seq<Write>, nonce: bytes, from: Line, anchor: Anchor<Digest>)
    requires |w.named| == |w.anchors| && SessionOk(w, next) && next.phase == Marked(covered, nonce, from)
    requires MarkerOf(anchor) == NextMarker(next.newest, nonce) && anchor.id == w.id
    requires anchor.txg == Last(next.line).txg && anchor.guid == Last(next.line).guid
    ensures SessionOk(w, next.(phase := Sealed(covered, anchor, from, next.line)))
  {
    LogMonotone(from, next.line);
  }

  lemma SecondSyncKeeps(w: World, live: Session, covered: seq<Write>, nonce: bytes, from: Line, wrote: bool, gap: nat)
    requires Core(w) && SessionOk(w, live) && live.phase == Marked(covered, nonce, from) && CanFlush(live, wrote)
    ensures Inv(SecondSync(w, live, covered, nonce, from, wrote, gap))
  {
    hide Core;
    FlushedKeeps(w, live, wrote, gap);
    var s := Flushed(w, live, wrote, gap);
    var next := s.session.value;
    HaltedOk(s.world, next);
    var s' := SecondSync(w, live, covered, nonce, from, wrote, gap);
    if s'.session.value.phase.Sealed? {
      SealedOk(s.world, next, covered, nonce, from, s'.session.value.phase.anchor);
    }
  }

  lemma PublishedKeeps(w: World, live: Session, covered: seq<Write>, anchor: Anchor<Digest>, from: Line, at: Line)
    requires Core(w) && SessionOk(w, live) && live.phase == Sealed(covered, anchor, from, at)
    requires anchor.num == |w.anchors|
    ensures Inv(Published(w, live, covered, anchor, at))
  {
    assert LineOk(live.line) && |w.named| == |w.anchors|;
    hide NoncesDrawn, ChainOk, NamedInLine, AckedKept, MarkersNamePredecessor, MarkersPinState, DescendantsMarked, SessionOk;
    PublishedChain(w, live, covered, anchor, from, at);
    PublishedInLine(w, live, covered, anchor, from, at);
    PublishedPredecessor(w, live, covered, anchor, at);
    PublishedPin(w, live, covered, anchor, from, at);
    PublishedDescendants(w, live, covered, anchor, from, at);
    PublishedRest(w, live, covered, anchor, from, at);
  }

  lemma PublishedRest(w: World, live: Session, covered: seq<Write>, anchor: Anchor<Digest>, from: Line, at: Line)
    requires ChainOk(w) && NoncesDrawn(w) && AckedKept(w)
    requires SessionOk(w, live) && live.phase == Sealed(covered, anchor, from, at)
    ensures var s := Published(w, live, covered, anchor, at);
            NoncesDrawn(s.world) && AckedKept(s.world) && SessionOk(s.world, s.session.value)
  {
  }

  lemma PublishedChain(w: World, live: Session, covered: seq<Write>, anchor: Anchor<Digest>, from: Line, at: Line)
    requires ChainOk(w)
    requires SessionOk(w, live) && live.phase == Sealed(covered, anchor, from, at) && anchor.num == |w.anchors|
    ensures ChainOk(Published(w, live, covered, anchor, at).world)
  {
  }

  lemma PublishedInLine(w: World, live: Session, covered: seq<Write>, anchor: Anchor<Digest>, from: Line, at: Line)
    requires ChainOk(w) && NamedInLine(w)
    requires SessionOk(w, live) && live.phase == Sealed(covered, anchor, from, at) && anchor.num == |w.anchors|
    ensures NamedInLine(Published(w, live, covered, anchor, at).world)
  {
  }

  lemma PublishedPredecessor(w: World, live: Session, covered: seq<Write>, anchor: Anchor<Digest>, at: Line)
    requires |w.named| == |w.anchors| && MarkersNamePredecessor(w)
    ensures MarkersNamePredecessor(Published(w, live, covered, anchor, at).world)
  {
  }

  /** The states with the new anchor's marker, no older than it, are all past the state it names. */
  lemma PublishedPin(w: World, live: Session, covered: seq<Write>, anchor: Anchor<Digest>, from: Line, at: Line)
    requires LineOk(live.line) && |w.named| == |w.anchors| && MarkersPinState(w)
    requires SessionOk(w, live) && live.phase == Sealed(covered, anchor, from, at)
    ensures MarkersPinState(Published(w, live, covered, anchor, at).world)
  {
    forall l: Line | l in w.synced && l != [] && Last(l).marker == Some(MarkerOf(anchor)) && Last(l).txg >= anchor.txg
      ensures at <= l
    {
      TxgOrdersLine(live.line, at, l);
    }
  }

  lemma PublishedDescendants(w: World, live: Session, covered: seq<Write>, anchor: Anchor<Digest>, from: Line, at: Line)
    requires |w.named| == |w.anchors|
    requires SessionOk(w, live) && live.phase == Sealed(covered, anchor, from, at)
    ensures DescendantsMarked(Published(w, live, covered, anchor, at).world)
  {
  }

  // ---- whole runs ---------------------------------------------------------

  lemma StepKeeps(s: State, a: Action)
    requires Inv(s) && Step(s, a).Some?
    ensures Inv(Step(s, a).value)
  {
    hide Core, SessionOk, LiveStep;
    var w := s.world;
    match (a, s.session)
    case (Create(guid, txg), None) => CreatedKeeps(w, guid, txg);
    case (Boot(line), None) => BootKeeps(w, line);
    case (Crash, Some(_)) =>
    case (_, Some(live)) => LiveStepKeeps(w, live, a);
    case _ =>
  }

  lemma LiveStepKeeps(w: World, live: Session, a: Action)
    requires Core(w) && SessionOk(w, live) && LiveStep(w, live, a).Some?
    ensures Inv(LiveStep(w, live, a).value)
  {
    hide Core, PhaseOk;
    match (a, live.phase)
    case (WriteData(data), _) => DirtyOk(w, live, data);
    case (Background(count, gap), _) => SyncedCore(w, live, count, gap); SyncedSession(w, live, count, gap);
    case (Sync(wrote, gap), Idle) => FirstSyncKeeps(w, live, wrote, gap);
    case (SetMarker(nonce, gap), Unanchored(covered)) => MarkerSetKeeps(w, live, covered, nonce, gap);
    case (Resync(wrote, gap), Marked(covered, nonce, from)) => SecondSyncKeeps(w, live, covered, nonce, from, wrote, gap);
    case (PutLands, Sealed(covered, anchor, from, at)) => PublishedKeeps(w, live, covered, anchor, from, at);
    case (ReadBack, Landed(covered, anchor)) => ReadBackKeeps(w, live, covered, anchor);
    case (Fail, _) => HaltedOk(w, live);
    case _ =>
  }

  lemma DirtyOk(w: World, live: Session, data: Write)
    requires |w.named| == |w.anchors| && SessionOk(w, live)
    ensures SessionOk(w, live.(dirty := live.dirty + [data]))
  {
  }

  lemma ReadBackKeeps(w: World, live: Session, covered: seq<Write>, anchor: Anchor<Digest>)
    requires Core(w) && SessionOk(w, live) && live.phase == Landed(covered, anchor)
    ensures Inv(State(w.(acked := covered), Some(live.(newest := At(anchor), phase := Idle))))
  {
    FrameCore(w, w.(acked := covered));
  }

  lemma {:induction false} RunKeeps(id: PoolIdentity, actions: seq<Action>)
    requires Run(id, actions).Some?
    ensures Inv(Run(id, actions).value)
  {
    if actions != [] {
      var before := actions[..|actions| - 1];
      RunKeeps(id, before);
      StepKeeps(Run(id, before).value, actions[|actions| - 1]);
    }
  }

  /** What has been acknowledged is never taken back. */
  lemma AcknowledgedGrows(s: State, a: Action)
    requires Inv(s) && Step(s, a).Some?
    ensures s.world.acked <= Step(s, a).value.world.acked
  {
    hide Core;
    if a.Sync? {
      FirstSyncKeeps(s.world, s.session.value, a.wrote, a.gap);
    }
  }

  function Written(live: Session): seq<Write> {
    Log(live.line) + live.dirty
  }

  /** What an anchor call in progress will acknowledge if it returns Ok. */
  function Covers(phase: Phase): Option<seq<Write>> {
    if phase.Idle? then None else Some(phase.covered)
  }

  /** An anchor call begins by covering everything written so far, and keeps covering exactly that
      until it acknowledges it, fails, or dies with its enclave. It fails at once if nothing has been written
      since the import. */
  lemma AnchorCoversEverythingWritten(s: State, a: Action)
    requires Inv(s) && s.session.Some? && Step(s, a).Some?
    ensures var s', live := Step(s, a).value, s.session.value;
            match Covers(live.phase)
            case None =>
              if a.Sync? then
                || s'.world.acked == Written(live)
                || (s'.session.Some? && Covers(s'.session.value.phase) == Some(Written(live)))
                || (|live.line| == live.loaded && live.dirty == [] && s' == s)
              else s'.world.acked == s.world.acked
            case Some(covered) =>
              || (a.ReadBack? && s'.world.acked == covered)
              || (s'.world.acked == s.world.acked
                  && (s'.session.None? || s'.session.value.newest.Stopped? || Covers(s'.session.value.phase) == Some(covered)))
  {
    hide Core, PhaseOk;
    if a.Sync? {
      FlushedKeeps(s.world, s.session.value, a.wrote, a.gap);
    }
  }

  /** No rollback. After any run, a state the host presents is admitted if and only if it descends
      from the state the newest anchor was taken at, and everything ever acknowledged is the beginning
      of what was written in it. */
  lemma NothingAcknowledgedIsLost(id: PoolIdentity, actions: seq<Action>, presented: Line)
    requires Run(id, actions).Some? && presented in Run(id, actions).value.world.synced
    requires Run(id, actions).value.world.anchors != []
    ensures var w := Run(id, actions).value.world;
            && |w.named| == |w.anchors| && Names(Tip(w), w.named[|w.named| - 1])
            && Opens(w, w.named[|w.named| - 1])
            && (Opens(w, presented) <==> w.named[|w.named| - 1] <= presented)
            && (Opens(w, presented) ==> w.acked <= Log(presented))
  {
    RunKeeps(id, actions);
    var w := Run(id, actions).value.world;
    var k := |w.anchors| - 1;
    assert Names(w.anchors[k], w.named[k]);
    DescendantAdmitted(w, w.named[k]);
    if Opens(w, presented) {
      AdmittedDescends(w, presented);
      LogMonotone(w.named[k], presented);
    }
    if w.named[k] <= presented {
      assert LineOk(presented);
      DescendantAdmitted(w, presented);
    }
  }
}
