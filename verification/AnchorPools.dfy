/** The anchor protocol, seen by whoever keeps records on the pool: the states a crash can bring back are those
    from some point of the pool's history on, and an anchor call that returns has moved that point up to the state
    in use when it began. */
module AnchorPools {
  import opened Wrappers
  import opened Anchors
  import opened AnchorProtocol
  import opened Pools

  /** The pool's states in the order they came into use, a restart going on from a copy of the one it was shown.
      `began` is where the line in use begins, `mark` the state in use when the anchor call in progress began. */
  datatype Track = Track(pool: Pool<Line>, began: nat, mark: nat)

  function Used(t: Track, line: Line): Track {
    t.(pool := Changed(t.pool, line))
  }

  /** Where on the line in use a state of it stands in the history. */
  function IndexOf(t: Track, line: Line, at: Line): nat {
    var back := |line| - |at| + 1;
    if 0 <= back <= |t.pool.history| then |t.pool.history| - back else 0
  }

  function Next(t: Track, s: State, a: Action): Track
    requires Step(s, a).Some?
  {
    var s' := Step(s, a).value;
    match (s.session, s'.session)
    case (None, Some(live)) => Track(Changed(t.pool, live.line), |t.pool.history|, |t.pool.history|)
    case (Some(live), Some(live')) =>
      var called := if a.Sync? && t.pool.history != [] then t.(mark := |t.pool.history| - 1) else t;
      if a.PutLands? && live.phase.Sealed? then called.(pool := Anchored(t.pool, IndexOf(t, live.line, live.phase.at)))
      else if live'.line != live.line then Used(called, live'.line)
      else called
    case _ => t
  }

  function Tracked(id: PoolIdentity, actions: seq<Action>): Track
    requires Run(id, actions).Some?
  {
    if actions == [] then Track(Pool([], 0), 0, 0)
    else
      var before := actions[..|actions| - 1];
      Next(Tracked(id, before), Run(id, before).value, actions[|actions| - 1])
  }

  // ---- the invariant ------------------------------------------------------

  /** The history holds exactly the states the disk ever held. */
  ghost predicate HistoryOk(t: Track, w: World) {
    && (forall i :: 0 <= i < |t.pool.history| ==> t.pool.history[i] in w.synced)
    && forall l: Line :: l in w.synced ==> l in t.pool.history
  }

  /** Since the line in use began, each state was the one before with one more version. */
  ghost predicate LineTracked(t: Track, live: Session) {
    var h := t.pool.history;
    && t.began < |h| <= t.began + |live.line|
    && (forall i :: t.began <= i < |h| ==> h[i] == live.line[..|live.line| - (|h| - 1 - i)])
    && (live.loaded == 0 || live.loaded == |h[t.began]|)
  }

  ghost predicate MarkOk(t: Track, live: Session) {
    var h := t.pool.history;
    && t.began <= t.mark < |h|
    && match live.phase
       case Marked(_, _, from) => h[t.mark] < from
       case Sealed(_, _, from, at) => h[t.mark] < from
       case Landed(_, _) => t.mark <= t.pool.floor
       case _ => true
  }

  /** The newest anchor's state stands at the floor, and what descends from it is exactly what came from there on. */
  ghost predicate FloorOk(t: Track, w: World) {
    var h, floor := t.pool.history, t.pool.floor;
    && |w.named| == |w.anchors|
    && (w.anchors == [] ==> floor == 0)
    && (w.anchors != [] ==>
        && floor < |h| && h[floor] == w.named[|w.named| - 1]
        && (forall i :: floor <= i < |h| ==> w.named[|w.named| - 1] <= h[i])
        && forall l: Line :: l in w.synced && w.named[|w.named| - 1] <= l ==> l in h[floor..])
  }

  /** An anchor from before the line in use names a state that line begins with. */
  ghost predicate FloorBehind(t: Track, w: World, live: Session)
    requires t.began < |t.pool.history| && |w.named| == |w.anchors|
  {
    w.anchors != [] && t.pool.floor < t.began ==>
      live.loaded == |t.pool.history[t.began]| && |w.named[|w.named| - 1]| <= live.loaded
  }

  ghost predicate TrackOk(t: Track, s: State) {
    && HistoryOk(t, s.world) && FloorOk(t, s.world)
    && (s.session.Some? ==>
        LineTracked(t, s.session.value) && MarkOk(t, s.session.value) && FloorBehind(t, s.world, s.session.value))
  }

  // ---- every step keeps it ------------------------------------------------

  /** The session is on a line that descends from the newest anchored state. */
  ghost predicate OnNewest(w: World, line: Line) {
    |w.named| == |w.anchors| && line in w.synced && line != [] && (w.anchors != [] ==> w.named[|w.named| - 1] <= line)
  }

  /** A state one version on from the one in use. */
  lemma UsedLine(t: Track, live: Session, v: Version, live': Session)
    requires LineTracked(t, live) && live'.line == live.line + [v] && live'.loaded == live.loaded
    ensures LineTracked(Used(t, live'.line), live')
  {
    var h, h' := t.pool.history, Used(t, live'.line).pool.history;
    forall i | t.began <= i < |h'| ensures h'[i] == live'.line[..|live'.line| - (|h'| - 1 - i)] {
      if i < |h| {
        PrefixOfGrown(live.line, v, |live.line| - (|h| - 1 - i));
        assert h'[i] == h[i];
      } else {
        assert live'.line[..|live'.line|] == live'.line;
      }
    }
  }

  lemma PrefixOfGrown(line: Line, v: Version, n: nat)
    requires n <= |line|
    ensures (line + [v])[..n] == line[..n]
  {
  }

  lemma UsedHistory(t: Track, w: World, line: Line, w': World)
    requires HistoryOk(t, w) && w'.synced == w.synced + {line}
    ensures HistoryOk(Used(t, line), w')
  {
  }

  lemma UsedFloor(t: Track, w: World, line: Line, w': World)
    requires FloorOk(t, w) && w'.synced == w.synced + {line} && w'.anchors == w.anchors && w'.named == w.named
    requires w.anchors != [] ==> w.named[|w.named| - 1] <= line
    ensures FloorOk(Used(t, line), w')
  {
    var h, h' := t.pool.history, Used(t, line).pool.history;
    if w.anchors != [] {
      assert h'[t.pool.floor..] == h[t.pool.floor..] + [line];
    }
  }

  /** A new session begins its line. */
  lemma BegunLine(t: Track, live: Session, t': Track)
    requires t'.pool.history == t.pool.history + [live.line] && t'.began == t'.mark == |t.pool.history|
    requires live.line != [] && (live.loaded == 0 || live.loaded == |live.line|) && (live.phase.Idle? || live.phase.Unanchored?)
    ensures LineTracked(t', live) && MarkOk(t', live)
  {
    assert live.line[..|live.line|] == live.line;
  }

  lemma BegunKeeps(t: Track, s: State, a: Action)
    requires Inv(s) && TrackOk(t, s) && s.session.None? && Step(s, a).Some? && Step(s, a).value.session.Some?
    ensures TrackOk(Next(t, s, a), Step(s, a).value)
  {
    var s' := Step(s, a).value;
    var live, t' := s'.session.value, Next(t, s, a);
    NextInv(s, a);
    BegunShape(s, a);
    hide Inv, Step, HistoryOk, FloorOk, LineTracked, MarkOk;
    UsedHistory(t, s.world, live.line, s'.world);
    UsedFloor(t, s.world, live.line, s'.world);
    BegunLine(t, live, t');
    assert t'.pool == Used(t, live.line).pool;
    TrackParts(Used(t, live.line), t', s'.world);
  }

  lemma BegunShape(s: State, a: Action)
    requires s.session.None? && Step(s, a).Some? && Step(s, a).value.session.Some?
    ensures var s' := Step(s, a).value;
            var live := s'.session.value;
            && s'.world.synced == s.world.synced + {live.line} && s'.world.anchors == s.world.anchors && s'.world.named == s.world.named
            && live.line != [] && (live.phase.Idle? || live.phase.Unanchored?)
            && (if s.world.anchors == [] then live.loaded == 0 else live.loaded == |live.line|)
  {
    hide Admits;
  }

  /** History and floor are the pool's alone. */
  lemma TrackParts(t: Track, t': Track, w: World)
    requires t'.pool == t.pool
    ensures HistoryOk(t, w) ==> HistoryOk(t', w)
    ensures FloorOk(t, w) ==> FloorOk(t', w)
  {
  }

  lemma NextInv(s: State, a: Action)
    requires Inv(s) && Step(s, a).Some?
    ensures Inv(Step(s, a).value)
    ensures Step(s, a).value.session.Some? ==> OnNewest(Step(s, a).value.world, Step(s, a).value.session.value.line)
  {
    StepKeeps(s, a);
    hide Step;
  }

  // ---- steps of a session -------------------------------------------------

  /** What a step of a session can do to the line in use: nothing, or one version more. */
  predicate Onward(s: State, s': State) {
    && s.session.Some? && s'.session.Some?
    && var live, live' := s.session.value, s'.session.value;
    && live'.loaded == live.loaded && live.line != []
    && ((live'.line == live.line && s'.world.synced == s.world.synced)
        || (|live'.line| == |live.line| + 1 && live.line <= live'.line && s'.world.synced == s.world.synced + {live'.line}))
  }

  lemma StepOnward(s: State, a: Action)
    requires s.session.Some? && Step(s, a).Some? && Step(s, a).value.session.Some?
    ensures Onward(s, Step(s, a).value)
    ensures !a.PutLands? ==> Step(s, a).value.world.anchors == s.world.anchors && Step(s, a).value.world.named == s.world.named
  {
  }

  /** How the anchor call in progress moves on. */
  predicate CallOnward(s: State, s': State, a: Action) {
    && s.session.Some? && s'.session.Some?
    && var live, live' := s.session.value, s'.session.value;
    match live'.phase
    case Idle => true
    case Unanchored(_) => live.phase.Unanchored? || (a.Sync? && live.phase.Idle?)
    case Marked(_, _, from) => (live.phase.Marked? && live.phase.from == from) || (a.SetMarker? && live'.line == from && live.line < from)
    case Sealed(_, _, from, at) =>
      || (live.phase.Sealed? && live.phase.from == from && live.phase.at == at)
      || (live.phase.Marked? && live.phase.from == from && at == live'.line)
    case Landed(_, _) => live.phase.Landed? || (a.PutLands? && live.phase.Sealed?)
  }

  lemma StepCalls(s: State, a: Action)
    requires s.session.Some? && Step(s, a).Some? && Step(s, a).value.session.Some?
    ensures CallOnward(s, Step(s, a).value, a)
    ensures a.Sync? ==> s.session.value.phase.Idle? && (Step(s, a).value.session.value.phase.Idle? || Step(s, a).value.session.value.phase.Unanchored?)
  {
  }

  lemma BehindStays(t: Track, w: World, live: Session, t': Track, w': World, live': Session)
    requires t.began < |t.pool.history| && |w.named| == |w.anchors| && FloorBehind(t, w, live)
    requires t'.began == t.began && t'.pool.floor == t.pool.floor && t.pool.history <= t'.pool.history
    requires w'.anchors == w.anchors && w'.named == w.named && live'.loaded == live.loaded
    ensures FloorBehind(t', w', live')
  {
  }

  /** The line may have grown: history, floor and line follow it. */
  lemma GrownKeeps(t: Track, s: State, s': State)
    requires TrackOk(t, s) && Onward(s, s') && OnNewest(s'.world, s'.session.value.line)
    requires s'.world.anchors == s.world.anchors && s'.world.named == s.world.named
    ensures var live, live' := s.session.value, s'.session.value;
            var t' := if live'.line != live.line then Used(t, live'.line) else t;
            HistoryOk(t', s'.world) && FloorOk(t', s'.world) && LineTracked(t', live') && FloorBehind(t', s'.world, live')
  {
    var live, live' := s.session.value, s'.session.value;
    if live'.line != live.line {
      var v := live'.line[|live.line|];
      assert live'.line == live.line + [v];
      UsedLine(t, live, v, live');
      assert t.began < |t.pool.history|;
      hide LineTracked, MarkOk;
      UsedHistory(t, s.world, live'.line, s'.world);
      UsedFloor(t, s.world, live'.line, s'.world);
      hide HistoryOk;
      BehindStays(t, s.world, live, Used(t, live'.line), s'.world, live');
    } else {
      hide MarkOk;
      BehindStays(t, s.world, live, t, s'.world, live');
    }
  }

  lemma MarkBelow(t: Track, live: Session)
    requires LineTracked(t, live) && t.began <= t.mark < |t.pool.history|
    ensures t.pool.history[t.mark] <= live.line
  {
  }

  /** The call in progress goes on from where it began. */
  lemma CallKeeps(t: Track, s: State, s': State, a: Action, t': Track)
    requires CallOnward(s, s', a) && !a.PutLands? && LineTracked(t, s.session.value) && MarkOk(t, s.session.value)
    requires t.pool.history <= t'.pool.history && t'.pool.floor == t.pool.floor && t'.began == t.began
    requires a.Sync? ==> t'.mark == |t.pool.history| - 1 && s.session.value.phase.Idle?
    requires !a.Sync? ==> t'.mark == t.mark
    requires s'.session.value.phase.Sealed? && s.session.value.phase.Marked? ==> s.session.value.phase.from <= s.session.value.line
    ensures MarkOk(t', s'.session.value)
  {
    MarkBelow(t, s.session.value);
    hide LineTracked;
    assert t'.pool.history[t.mark] == t.pool.history[t.mark];
  }

  lemma QuietNext(t: Track, s: State, a: Action)
    requires s.session.Some? && Step(s, a).Some? && Step(s, a).value.session.Some? && !a.PutLands? && t.pool.history != []
    ensures var line, line' := s.session.value.line, Step(s, a).value.session.value.line;
            var grown := if line' != line then Used(t, line') else t;
            Next(t, s, a) == grown.(mark := if a.Sync? then |t.pool.history| - 1 else t.mark)
  {
    hide Step;
  }

  lemma QuietKeeps(t: Track, s: State, a: Action)
    requires Inv(s) && TrackOk(t, s) && s.session.Some? && Step(s, a).Some? && Step(s, a).value.session.Some? && !a.PutLands?
    ensures TrackOk(Next(t, s, a), Step(s, a).value)
  {
    hide Inv, Step, TrackOk, HistoryOk, FloorOk, FloorBehind, MarkOk, Next, CallOnward, Onward;
    var s', t' := Step(s, a).value, Next(t, s, a);
    Parts(t, s);
    NextInv(s, a);
    StepOnward(s, a);
    StepCalls(s, a);
    FromBelow(s);
    QuietNext(t, s, a);
    GrownKeeps(t, s, s');
    var grown := if s'.session.value.line != s.session.value.line then Used(t, s'.session.value.line) else t;
    CallKeeps(t, s, s', a, t');
    hide LineTracked;
    TrackParts(grown, t', s'.world);
    LineParts(grown, t', s'.session.value, s'.world);
    Parts(t', s');
  }

  lemma LineParts(t: Track, t': Track, live: Session, w: World)
    requires t'.pool == t.pool && t'.began == t.began
    ensures LineTracked(t, live) ==> LineTracked(t', live)
    ensures t.began < |t.pool.history| && |w.named| == |w.anchors| && FloorBehind(t, w, live) ==> FloorBehind(t', w, live)
  {
  }

  lemma FromBelow(s: State)
    requires Inv(s)
    ensures s.session.Some? && s.session.value.phase.Marked? ==> s.session.value.phase.from <= s.session.value.line
  {
  }

  // ---- an anchor lands ----------------------------------------------------

  /** A state of the line in use, not shorter than where the line began, stands where it should. */
  lemma IndexStands(t: Track, live: Session, at: Line)
    requires LineTracked(t, live) && at <= live.line && |at| >= |t.pool.history[t.began]|
    ensures var i := IndexOf(t, live.line, at); t.began <= i < |t.pool.history| && t.pool.history[i] == at
    ensures IndexOf(t, live.line, at) == |t.pool.history| - 1 - (|live.line| - |at|)
  {
    var h := t.pool.history;
    assert h[t.began] == live.line[..|live.line| - (|h| - 1 - t.began)];
  }

  lemma FromIndexOn(t: Track, live: Session, at: Line, i: nat)
    requires LineTracked(t, live) && at <= live.line && |at| >= |t.pool.history[t.began]|
    requires IndexOf(t, live.line, at) <= i < |t.pool.history|
    ensures at <= t.pool.history[i]
  {
    IndexStands(t, live, at);
  }

  lemma InTail(t: Track, live: Session, at: Line, l: Line)
    requires LineTracked(t, live) && at <= l <= live.line && |at| >= |t.pool.history[t.began]|
    ensures IndexOf(t, live.line, at) <= |t.pool.history| && l in t.pool.history[IndexOf(t, live.line, at)..]
  {
    IndexStands(t, live, at);
    IndexStands(t, live, l);
    var index := IndexOf(t, live.line, at);
    assert t.pool.history[index..][IndexOf(t, live.line, l) - index] == l;
  }

  lemma LandedFloor(t: Track, w: World, live: Session, at: Line, w': World)
    requires LineTracked(t, live) && FloorOk(t, w) && at <= live.line && |at| >= |t.pool.history[t.began]|
    requires w'.synced == w.synced && |w'.anchors| == |w.anchors| + 1 && w'.named == w.named + [at]
    requires w.named != [] ==> w.named[|w.named| - 1] <= at
    requires forall l: Line :: l in w.synced && at <= l ==> l <= live.line
    ensures var t' := t.(pool := Anchored(t.pool, IndexOf(t, live.line, at)));
            t'.pool.floor == IndexOf(t, live.line, at) && FloorOk(t', w')
  {
    IndexStands(t, live, at);
    FloorBelow(t, w, live, at);
    assert |w.named| == |w.anchors|;
    hide FloorOk, LineTracked, IndexOf;
    var h, index := t.pool.history, IndexOf(t, live.line, at);
    forall i | index <= i < |h| ensures at <= h[i] {
      FromIndexOn(t, live, at, i);
    }
    forall l: Line | l in w.synced && at <= l ensures l in h[index..] {
      InTail(t, live, at, l);
    }
    FloorAt(t.(pool := Anchored(t.pool, index)), w', at);
  }

  lemma FloorAt(t: Track, w: World, at: Line)
    requires |w.named| == |w.anchors| > 0 && w.named[|w.named| - 1] == at
    requires t.pool.floor < |t.pool.history| && t.pool.history[t.pool.floor] == at
    requires forall i :: t.pool.floor <= i < |t.pool.history| ==> at <= t.pool.history[i]
    requires forall l: Line :: l in w.synced && at <= l ==> l in t.pool.history[t.pool.floor..]
    ensures FloorOk(t, w)
  {
  }

  /** The newest anchor until now names no later state. */
  lemma FloorBelow(t: Track, w: World, live: Session, at: Line)
    requires LineTracked(t, live) && FloorOk(t, w) && at <= live.line && |at| >= |t.pool.history[t.began]|
    requires w.named != [] ==> w.named[|w.named| - 1] <= at
    ensures t.pool.floor <= IndexOf(t, live.line, at)
  {
    IndexStands(t, live, at);
    var h, floor := t.pool.history, t.pool.floor;
    if w.anchors != [] && floor >= t.began {
      assert h[floor] == live.line[..|live.line| - (|h| - 1 - floor)];
    }
  }

  lemma Parts(t: Track, s: State)
    ensures TrackOk(t, s) ==> HistoryOk(t, s.world) && FloorOk(t, s.world)
    ensures TrackOk(t, s) && s.session.Some? ==>
              LineTracked(t, s.session.value) && MarkOk(t, s.session.value) && FloorBehind(t, s.world, s.session.value)
    ensures HistoryOk(t, s.world) && FloorOk(t, s.world) && s.session.Some?
            && LineTracked(t, s.session.value) && MarkOk(t, s.session.value) && FloorBehind(t, s.world, s.session.value)
            ==> TrackOk(t, s)
  {
    hide HistoryOk, FloorOk, MarkOk, FloorBehind;
  }

  lemma SealedMark(t: Track, live: Session)
    requires MarkOk(t, live) && live.phase.Sealed? && live.phase.from <= live.phase.at
    ensures t.began <= t.mark < |t.pool.history| && t.pool.history[t.mark] <= live.phase.at
  {
  }

  lemma LandedKeeps(t: Track, s: State)
    requires Inv(s) && TrackOk(t, s) && s.session.Some? && Step(s, PutLands).Some?
    ensures TrackOk(Next(t, s, PutLands), Step(s, PutLands).value)
  {
    var s', live := Step(s, PutLands).value, s.session.value;
    LandedShape(s);
    LandedNext(t, s);
    var at := live.phase.at;
    hide Inv, Step, TrackOk, HistoryOk, FloorOk, FloorBehind, MarkOk, Next, LineTracked, IndexOf;
    Parts(t, s);
    SealedMark(t, live);
    LandedAbove(t, live, at);
    LandedFloor(t, s.world, live, at, s'.world);
    IndexStands(t, live, at);
    var t' := t.(pool := Anchored(t.pool, IndexOf(t, live.line, at)));
    LandedLine(t, t', live, s'.session.value, s.world, s'.world);
    LandedMark(t', s'.session.value, s'.world);
    Parts(t', s');
  }

  lemma LandedNext(t: Track, s: State)
    requires s.session.Some? && Step(s, PutLands).Some?
    ensures s.session.value.phase.Sealed?
    ensures Next(t, s, PutLands) == t.(pool := Anchored(t.pool, IndexOf(t, s.session.value.line, s.session.value.phase.at)))
  {
  }

  lemma LandedMark(t: Track, live: Session, w: World)
    requires live.phase.Landed? && t.began <= t.mark <= t.pool.floor < |t.pool.history| && |w.named| == |w.anchors|
    ensures MarkOk(t, live) && FloorBehind(t, w, live)
  {
  }

  lemma LandedLine(t: Track, t': Track, live: Session, live': Session, w: World, w': World)
    requires t'.pool.history == t.pool.history && t'.began == t.began && live'.line == live.line && live'.loaded == live.loaded
    requires w'.synced == w.synced
    ensures LineTracked(t, live) ==> LineTracked(t', live')
    ensures HistoryOk(t, w) ==> HistoryOk(t', w')
  {
  }

  /** The anchor's state is past the state in use when the call began, which is on the line in use. */
  lemma LandedAbove(t: Track, live: Session, at: Line)
    requires LineTracked(t, live) && t.began <= t.mark < |t.pool.history| && at <= live.line && t.pool.history[t.mark] <= at
    ensures |at| >= |t.pool.history[t.began]| && t.mark <= IndexOf(t, live.line, at)
  {
    var h := t.pool.history;
    assert h[t.began] == live.line[..|live.line| - (|h| - 1 - t.began)];
    assert h[t.mark] == live.line[..|live.line| - (|h| - 1 - t.mark)];
    IndexStands(t, live, at);
  }

  lemma SealedParts(w: World, live: Session)
    requires |w.named| == |w.anchors| && SessionOk(w, live) && live.phase.Sealed?
    ensures live.phase.from <= live.phase.at <= live.line
    ensures forall l: Line :: l in w.synced && live.phase.at <= l ==> l <= live.line
  {
    forall l: Line | l in w.synced && live.phase.at <= l ensures l <= live.line {
      assert live.phase.from <= l;
    }
  }

  lemma NamedGrow(s: State)
    requires Inv(s)
    ensures var named := s.world.named;
            |named| == |s.world.anchors| && (|named| > 1 ==> named[|named| - 2] <= named[|named| - 1])
  {
    assert NamedInLine(s.world);
    hide Inv, Core;
  }

  lemma LandedShape(s: State)
    requires Inv(s) && s.session.Some? && Step(s, PutLands).Some?
    ensures var s', live := Step(s, PutLands).value, s.session.value;
            && live.phase.Sealed? && s'.session.Some? && s'.session.value.phase.Landed?
            && s'.session.value.line == live.line && s'.session.value.loaded == live.loaded
            && live.phase.from <= live.phase.at <= live.line
            && s'.world.synced == s.world.synced && |s.world.named| == |s.world.anchors|
            && |s'.world.anchors| == |s.world.anchors| + 1 && s'.world.named == s.world.named + [live.phase.at]
            && (s.world.named != [] ==> s.world.named[|s.world.named| - 1] <= live.phase.at)
            && (forall l: Line :: l in s.world.synced && live.phase.at <= l ==> l <= live.line)
  {
    hide Core, SessionOk;
    StepKeeps(s, PutLands);
    NamedGrow(s);
    NamedGrow(Step(s, PutLands).value);
    hide Inv;
    InvParts(s);
    SealedParts(s.world, s.session.value);
  }

  lemma InvParts(s: State)
    requires Inv(s)
    ensures |s.world.named| == |s.world.anchors| && (s.session.Some? ==> SessionOk(s.world, s.session.value))
  {
  }

  // ---- whole runs ---------------------------------------------------------

  lemma NextKeeps(t: Track, s: State, a: Action)
    requires Inv(s) && TrackOk(t, s) && Step(s, a).Some?
    ensures TrackOk(Next(t, s, a), Step(s, a).value)
  {
    hide Inv, Step, TrackOk, Next;
    if Step(s, a).value.session.None? {
      DownKeeps(t, s, a);
    } else if s.session.None? {
      BegunKeeps(t, s, a);
    } else if a.PutLands? {
      LandedKeeps(t, s);
    } else {
      QuietKeeps(t, s, a);
    }
  }

  lemma DownKeeps(t: Track, s: State, a: Action)
    requires TrackOk(t, s) && Step(s, a).Some? && Step(s, a).value.session.None?
    ensures TrackOk(Next(t, s, a), Step(s, a).value)
  {
    hide HistoryOk, FloorOk, LineTracked, MarkOk;
    assert Step(s, a).value.world == s.world;
  }

  lemma {:induction false} TrackedOk(id: PoolIdentity, actions: seq<Action>)
    requires Run(id, actions).Some?
    ensures TrackOk(Tracked(id, actions), Run(id, actions).value)
  {
    if actions != [] {
      var before := actions[..|actions| - 1];
      TrackedOk(id, before);
      RunKeeps(id, before);
      hide TrackOk, Inv, Step, Next;
      NextKeeps(Tracked(id, before), Run(id, before).value, actions[|actions| - 1]);
    }
  }

  /** In any run, once the pool is anchored, the states a boot would admit are exactly those from the floor on. */
  lemma AdmittedFromFloor(id: PoolIdentity, actions: seq<Action>, line: Line)
    requires Run(id, actions).Some? && Run(id, actions).value.world.anchors != []
    requires line in Run(id, actions).value.world.synced
    ensures var pool := Tracked(id, actions).pool;
            Opens(Run(id, actions).value.world, line) <==>
              exists i: nat :: Revealable(pool, i) && pool.history[i] == line
  {
    TrackedOk(id, actions);
    NothingAcknowledgedIsLost(id, actions, line);
    var w, pool := Run(id, actions).value.world, Tracked(id, actions).pool;
    hide Run, Tracked, Opens, HistoryOk, LineTracked, MarkOk, FloorBehind;
    if w.named[|w.named| - 1] <= line {
      var k :| 0 <= k < |pool.history[pool.floor..]| && pool.history[pool.floor..][k] == line;
      var i: nat := pool.floor + k;
      assert Revealable(pool, i) && pool.history[i] == line;
    }
  }

  /** An anchor call returns: its read-back answers, or nothing has reached the disk since the last one of this session. */
  predicate Returns(s: State, a: Action) {
    && s.session.Some? && Step(s, a).Some?
    && (a.ReadBack? || (a.Sync? && Step(s, a).value.session.Some? && Step(s, a).value.session.value.phase.Idle?
                        && |Step(s, a).value.session.value.line| != s.session.value.loaded))
  }

  /** When an anchor call returns, the floor is at or past the state in use when it began, and so past every line
      left behind before this one. */
  lemma ReturnRaisesFloor(id: PoolIdentity, before: seq<Action>, a: Action)
    requires Run(id, before).Some? && Returns(Run(id, before).value, a)
    ensures Run(id, before + [a]).Some?
    ensures var t := Tracked(id, before + [a]); t.began <= t.mark <= t.pool.floor < |t.pool.history|
  {
    var s := Run(id, before).value;
    var all := before + [a];
    assert all[..|all| - 1] == before;
    TrackedOk(id, before);
    TrackedOk(id, all);
    RunKeeps(id, before);
    var t, t' := Tracked(id, before), Tracked(id, all);
    assert t' == Next(t, s, a);
    if a.ReadBack? {
      ReadBackFloor(t, s);
    } else {
      SyncFloor(t, s, a);
    }
  }

  lemma ReadBackFloor(t: Track, s: State)
    requires TrackOk(t, s) && Inv(s) && s.session.Some? && Step(s, ReadBack).Some?
    ensures var t' := Next(t, s, ReadBack); t'.began <= t'.mark <= t'.pool.floor < |t'.pool.history|
  {
    ReadBackShape(s);
    InvParts(s);
    hide Inv, Step, HistoryOk, LineTracked, FloorBehind;
    assert Next(t, s, ReadBack) == t;
  }

  lemma ReadBackShape(s: State)
    requires Inv(s) && s.session.Some? && Step(s, ReadBack).Some?
    ensures s.session.value.phase.Landed? && s.world.anchors != []
    ensures var s' := Step(s, ReadBack).value; s'.session.Some? && s'.session.value.line == s.session.value.line
  {
    hide Core;
  }

  /** Nothing has reached the disk since an anchor of this session, so the state in use is the one it names. */
  lemma SyncFloor(t: Track, s: State, a: Action)
    requires TrackOk(t, s) && Inv(s) && a.Sync? && Returns(s, a)
    ensures var t' := Next(t, s, a); t'.began <= t'.mark <= t'.pool.floor < |t'.pool.history|
  {
    SyncStill(s, a);
    SyncNext(t, s, a);
    hide Inv, Step, TrackOk, Next, HistoryOk, FloorOk, FloorBehind, MarkOk, LineTracked;
    Parts(t, s);
    FloorInUse(t, s.world, s.session.value);
  }

  lemma SyncNext(t: Track, s: State, a: Action)
    requires a.Sync? && Returns(s, a) && Step(s, a).value.session.value.line == s.session.value.line && t.pool.history != []
    ensures Next(t, s, a) == t.(mark := |t.pool.history| - 1)
  {
  }

  lemma FloorInUse(t: Track, w: World, live: Session)
    requires LineTracked(t, live) && FloorOk(t, w) && FloorBehind(t, w, live)
    requires |live.line| != live.loaded && w.anchors != [] && live.line == w.named[|w.named| - 1]
    ensures t.began <= |t.pool.history| - 1 == t.pool.floor
  {
    var h, floor := t.pool.history, t.pool.floor;
    assert h[t.began] == live.line[..|live.line| - (|h| - 1 - t.began)];
    if floor >= t.began {
      assert h[floor] == live.line[..|live.line| - (|h| - 1 - floor)];
    }
  }

  lemma SyncStill(s: State, a: Action)
    requires Inv(s) && a.Sync? && Returns(s, a)
    ensures var w, live := s.world, s.session.value;
            && Step(s, a).value.session.Some? && Step(s, a).value.session.value.line == live.line && |live.line| != live.loaded
            && |w.named| == |w.anchors| && w.anchors != [] && live.line == w.named[|w.named| - 1]
  {
    var live := s.session.value;
    SyncShape(s, a);
    InvParts(s);
    NewestBefore(s);
    var f := Flushed(s.world, live, a.wrote, a.gap);
    assert Core(s.world);
    hide Inv, Step, Core, SessionOk;
    FlushedKeeps(s.world, live, a.wrote, a.gap);
    FlushedSame(s.world, live, a.wrote, a.gap);
    CoreParts(f.world, f.session.value);
    SameTxgSameState(f.world, f.session.value);
    hide Flushed;
    assert s.world.named[|s.world.named| - 1] <= live.line <= f.session.value.line;
  }

  lemma SyncShape(s: State, a: Action)
    requires a.Sync? && Returns(s, a)
    ensures var live := s.session.value;
            && live.line != [] && live.phase.Idle? && live.newest.At? && CanFlush(live, a.wrote)
            && var f, s' := Flushed(s.world, live, a.wrote, a.gap), Step(s, a).value;
            && s'.session.Some? && s'.session.value.line == f.session.value.line && |f.session.value.line| != live.loaded
            && Last(f.session.value.line).txg == live.newest.anchor.txg
  {
  }

  lemma FlushedSame(w: World, live: Session, wrote: bool, gap: nat)
    requires live.line != [] && CanFlush(live, wrote)
    ensures var f := Flushed(w, live, wrote, gap);
            && f.world.named == w.named && f.world.anchors == w.anchors
            && f.session.value.phase == live.phase && f.session.value.newest == live.newest && f.session.value.loaded == live.loaded
  {
  }

  lemma CoreParts(w: World, live: Session)
    requires Core(w) && SessionOk(w, live)
    ensures LineOk(live.line) && ChainOk(w)
  {
    hide NoncesDrawn, ChainOk, NamedInLine, AckedKept, MarkersNamePredecessor, MarkersPinState, DescendantsMarked, PhaseOk;
  }

  lemma NewestBefore(s: State)
    requires Inv(s) && s.session.Some? && s.session.value.phase.Idle? && s.session.value.newest.At?
    ensures |s.world.named| == |s.world.anchors| && s.world.anchors != []
    ensures s.world.named[|s.world.named| - 1] <= s.session.value.line
  {
    hide Core;
  }
}
