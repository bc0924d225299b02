/** What an anchor call comes to when nothing fails: each of its steps can be taken in every reachable state, and the
    last one acknowledges all that had been written when it began. */
module AnchorProgress {
  import opened Wrappers
  import opened Anchors
  import opened AnchorProtocol

  /** Something reached the disk since the import that the newest anchor does not name. */
  predicate HasNews(live: Session)
    requires live.line != [] && live.newest.At?
  {
    |live.line| != live.loaded && Last(live.line).txg != live.newest.anchor.txg
  }

  /** The newest anchor's state is on the line, so the line never ends before it. */
  lemma NotBeforeTip(w: World, live: Session)
    requires Core(w) && SessionOk(w, live) && live.newest.At? && !live.phase.Landed?
    ensures LineOk(live.line) && w.anchors != [] && live.newest.anchor == Tip(w)
    ensures Last(live.line).txg >= Tip(w).txg && Last(live.line).guid == Tip(w).guid && Tip(w).num == |w.anchors| - 1
  {
    var k := |w.anchors| - 1;
    assert Names(w.anchors[k], w.named[k]);
    assert Last(w.named[k]) == live.line[|w.named[k]| - 1];
  }

  /** A line that carries the marker of an anchor still to come is past the newest anchor's state. */
  lemma PastTip(w: World, live: Session, nonce: bytes)
    requires Core(w) && SessionOk(w, live) && live.newest.At? && !live.phase.Landed?
    requires Last(live.line).marker == Some(NextMarker(live.newest, nonce))
    ensures w.anchors != [] && live.newest.anchor == Tip(w) && Last(live.line).txg > Tip(w).txg
  {
    NotBeforeTip(w, live);
    var k := |w.anchors| - 1;
    assert Names(w.anchors[k], w.named[k]);
    assert live.line != w.named[k];
  }

  lemma IdleFacts(s: State)
    requires Inv(s) && s.session.Some? && s.session.value.newest.At? && s.session.value.phase.Idle?
    ensures var live := s.session.value;
            live.line != [] && live.loaded <= |live.line| && Last(live.line).txg >= live.newest.anchor.txg
  {
    NotBeforeTip(s.world, s.session.value);
  }

  lemma MarkedFacts(s: State)
    requires Inv(s) && s.session.Some? && s.session.value.phase.Marked?
    ensures var live := s.session.value;
            live.line != [] && !live.newest.Stopped? && (live.newest.At? ==> Last(live.line).txg > live.newest.anchor.txg)
  {
    var live := s.session.value;
    assert Last(live.line).marker == Some(NextMarker(live.newest, live.phase.nonce));
    if live.newest.At? {
      PastTip(s.world, live, live.phase.nonce);
    }
  }

  lemma LandedFacts(s: State)
    requires Inv(s) && s.session.Some? && s.session.value.phase.Landed?
    ensures var w, live := s.world, s.session.value;
            live.line != [] && w.anchors != [] && live.phase.anchor == Tip(w) && Tip(w).num == |w.anchors| - 1
  {
    var w := s.world;
    assert ChainOk(w);
    hide Core;
    assert w.anchors[|w.anchors| - 1].num == |w.anchors| - 1;
  }

  /** A line with one more version ends later. */
  lemma FlushedLater(w: World, live: Session, wrote: bool, gap: nat)
    requires live.line != [] && CanFlush(live, wrote)
    ensures var s := Flushed(w, live, wrote, gap);
            var next := s.session.value;
            && s.world == w.(synced := s.world.synced) && next.newest == live.newest && next.loaded == live.loaded && next.phase == live.phase
            && live.line <= next.line && Log(next.line) == Written(live) && next.dirty == []
            && Last(next.line).guid == Last(live.line).guid
            && (if wrote then |next.line| == |live.line| + 1 && Last(next.line).txg == Last(live.line).txg + 1 + gap
                else s == State(w, Some(live)))
  {
    if wrote {
      LogOfGrown(live.line, Txg(live, |live.dirty|, gap, Last(live.line).marker));
    }
  }

  /** The line goes on from where it was, with everything that had been written on it. */
  predicate GoesOn(live: Session, next: Session) {
    && next.newest == live.newest && next.dirty == [] && Log(next.line) == Written(live)
    && live.line != [] && live.line <= next.line
    && Last(next.line).guid == Last(live.line).guid && Last(next.line).txg >= Last(live.line).txg
  }

  /** How a call begins: it goes on to set a marker exactly when there is something the newest anchor does not name. */
  lemma CallBegins(s: State, wrote: bool, gap: nat)
    requires Inv(s) && s.session.Some? && s.session.value.phase.Idle? && s.session.value.newest.At?
    requires CanFlush(s.session.value, wrote)
    ensures var live, r := s.session.value, Step(s, Sync(wrote, gap));
            && r.Some? && r.value.session.Some?
            && r.value.world == s.world.(synced := r.value.world.synced, acked := r.value.world.acked)
            && (if wrote || HasNews(live) then
                  && r.value.session.value.phase == Unanchored(Written(live))
                  && GoesOn(live, r.value.session.value)
                  && r.value.world.acked == s.world.acked
                else
                  && r.value.session == s.session && r.value.world.synced == s.world.synced
                  && r.value.world.acked == if |live.line| == live.loaded then s.world.acked else Written(live))
  {
    hide Inv, Log, Flushed, CanFlush, MarkerSet, SecondSync, Published, Synced;
    var live := s.session.value;
    IdleFacts(s);
    FlushedLater(s.world, live, wrote, gap);
  }

  lemma MarkerLater(w: World, live: Session, covered: seq<Write>, nonce: bytes, gap: nat)
    requires live.line != []
    ensures var s := MarkerSet(w, live, covered, nonce, gap);
            && s.session.Some? && GoesOn(live, s.session.value)
            && Last(s.session.value.line).txg > Last(live.line).txg
            && s.session.value.phase == Marked(covered, nonce, s.session.value.line)
            && s.world == w.(synced := s.world.synced, nonces := w.nonces + {nonce})
  {
    hide Log;
    var v := Txg(live, |live.dirty|, gap, Some(NextMarker(live.newest, nonce)));
    LogOfGrown(live.line, v);
    assert live.dirty[..|live.dirty|] == live.dirty;
  }

  lemma LineThere(s: State)
    requires Inv(s) && s.session.Some?
    ensures s.session.value.line != []
  {
  }

  lemma MarkerGoesOn(s: State, nonce: bytes, gap: nat)
    requires Inv(s) && s.session.Some? && s.session.value.phase.Unanchored? && nonce !in s.world.nonces
    ensures var live, r := s.session.value, Step(s, SetMarker(nonce, gap));
            && r.Some? && r.value.session.Some? && GoesOn(live, r.value.session.value)
            && Last(r.value.session.value.line).txg > Last(live.line).txg
            && r.value.session.value.phase == Marked(live.phase.covered, nonce, r.value.session.value.line)
            && r.value.world == s.world.(synced := r.value.world.synced, nonces := s.world.nonces + {nonce})
  {
    hide Inv, MarkerSet, GoesOn;
    LineThere(s);
    MarkerLater(s.world, s.session.value, s.session.value.phase.covered, nonce, gap);
  }

  /** The anchor a call seals: the number after the newest, the newest's digest, and what the line ends in. */
  function Sealing(w: World, live: Session, line: Line, nonce: bytes): Anchor<Digest>
    requires line != []
  {
    Anchor(NextNum(live.newest), PrevDigest(live.newest), w.id, Last(line).guid, Last(line).txg, nonce)
  }

  /** Syncing again seals an anchor in every reachable state: the marker's own txg is past the newest anchor's. */
  lemma ResyncSeals(s: State, wrote: bool, gap: nat)
    requires Inv(s) && s.session.Some? && s.session.value.phase.Marked? && CanFlush(s.session.value, wrote)
    ensures var live, r := s.session.value, Step(s, Resync(wrote, gap));
            && r.Some? && r.value.session.Some? && GoesOn(live, r.value.session.value)
            && r.value.session.value.line != []
            && r.value.session.value.phase ==
               Sealed(live.phase.covered, Sealing(s.world, live, r.value.session.value.line, live.phase.nonce), live.phase.from,
                      r.value.session.value.line)
            && r.value.world == s.world.(synced := r.value.world.synced)
  {
    hide Inv, Log, Flushed, CanFlush, FirstSync, MarkerSet, Published, Synced;
    var live := s.session.value;
    MarkedFacts(s);
    FlushedLater(s.world, live, wrote, gap);
  }

  /** In any state at all, syncing again stops anchoring exactly when the txg reached is not past the newest anchor's. */
  lemma ResyncStopsExactly(s: State, wrote: bool, gap: nat)
    requires s.session.Some? && !s.session.value.newest.Stopped? && Step(s, Resync(wrote, gap)).Some?
    ensures var live, next := s.session.value, Step(s, Resync(wrote, gap)).value.session;
            && next.Some? && next.value.line != []
            && (next.value.newest.Stopped? <==> live.newest.At? && Last(next.value.line).txg <= live.newest.anchor.txg)
            && (!next.value.newest.Stopped? ==> next.value.phase.Sealed? && next.value.newest == live.newest)
  {
  }

  lemma PutGoesOn(s: State)
    requires Inv(s) && s.session.Some? && s.session.value.phase.Sealed?
    ensures var live, r := s.session.value, Step(s, PutLands);
            && r.Some? && r.value.session == Some(live.(phase := Landed(live.phase.covered, live.phase.anchor)))
            && r.value.world == s.world.(anchors := s.world.anchors + [live.phase.anchor], named := s.world.named + [live.phase.at])
            && live.phase.anchor.num == |s.world.anchors|
            && live.phase.anchor.prev == if s.world.anchors == [] then Zero else Of(Tip(s.world))
  {
    var w, live := s.world, s.session.value;
    if live.newest.At? {
      NotBeforeTip(w, live);
    }
  }

  lemma ReadBackGoesOn(s: State)
    requires Inv(s) && s.session.Some? && s.session.value.phase.Landed?
    ensures var live, r := s.session.value, Step(s, ReadBack);
            && r.Some? && r.value.session == Some(live.(newest := At(live.phase.anchor), phase := Idle))
            && r.value.world == s.world.(acked := live.phase.covered)
  {
    hide Inv, FirstSync, MarkerSet, SecondSync, Published, Synced, CanFlush;
    LandedFacts(s);
  }

  /** What a call that returns leaves behind: one more anchor, of the line as it ends, following the newest, and all
      that had been written is acknowledged. */
  predicate Returned(s: State, s': State, nonce: bytes)
    requires s.session.Some?
  {
    var w, w', live := s.world, s'.world, s.session.value;
    && s'.session.Some? && s'.session.value.phase.Idle? && s'.session.value.dirty == []
    && live.line != [] && live.line <= s'.session.value.line && Log(s'.session.value.line) == Written(live)
    && Last(s'.session.value.line).txg > Last(live.line).txg
    && w'.anchors == w.anchors + [Anchor(|w.anchors|, if w.anchors == [] then Zero else Of(Tip(w)), w.id,
                                         Last(live.line).guid, Last(s'.session.value.line).txg, nonce)]
    && w'.named == w.named + [s'.session.value.line]
    && s'.session.value.newest == At(Tip(w'))
    && w'.acked == Written(live)
  }

  /** From a marker still to be set, with nothing written meanwhile. */
  lemma RestSucceeds(id: PoolIdentity, done: seq<Action>, nonce: bytes, g2: nat, again: bool, g3: nat)
    requires Run(id, done).Some? && Run(id, done).value.session.Some?
    requires var live := Run(id, done).value.session.value;
             live.line != [] && live.phase == Unanchored(Written(live)) && live.dirty == []
    requires nonce !in Run(id, done).value.world.nonces
    ensures var rest := [SetMarker(nonce, g2), Resync(again, g3), PutLands, ReadBack];
            && Run(id, done + rest).Some?
            && Returned(Run(id, done).value, Run(id, done + rest).value, nonce)
  {
    hide Step, Inv, Run, Log, Core;
    var s := Run(id, done).value;
    RunKeeps(id, done);
    MarkerGoesOn(s, nonce, g2);
    var one := RunMore(id, done, SetMarker(nonce, g2));
    var s1 := Run(id, one).value;
    assert s1.session.value.dirty == [];
    ResyncSeals(s1, again, g3);
    var two := RunMore(id, one, Resync(again, g3));
    PutGoesOn(Run(id, two).value);
    var three := RunMore(id, two, PutLands);
    ReadBackGoesOn(Run(id, three).value);
    var four := RunMore(id, three, ReadBack);
    assert four == done + [SetMarker(nonce, g2), Resync(again, g3), PutLands, ReadBack];
  }

  lemma RunMore(id: PoolIdentity, done: seq<Action>, a: Action) returns (more: seq<Action>)
    requires Run(id, done).Some? && Step(Run(id, done).value, a).Some?
    ensures more == done + [a] && Run(id, more) == Step(Run(id, done).value, a)
    ensures Inv(Run(id, done).value) && Inv(Run(id, more).value)
  {
    more := done + [a];
    assert more[..|more| - 1] == done;
    RunKeeps(id, done);
    RunKeeps(id, more);
  }

  /** A call that nothing interrupts succeeds. From every reachable state of a live enclave with something to anchor,
      whatever the kernel's txgs, it publishes the next anchor and acknowledges all that had been written. */
  lemma CallSucceeds(id: PoolIdentity, done: seq<Action>, wrote: bool, g1: nat, nonce: bytes, g2: nat, again: bool, g3: nat)
    requires Run(id, done).Some? && Run(id, done).value.session.Some?
    requires var live := Run(id, done).value.session.value;
             live.line != [] && live.phase.Idle? && live.newest.At? && CanFlush(live, wrote) && (wrote || HasNews(live))
    requires nonce !in Run(id, done).value.world.nonces
    ensures var call := [Sync(wrote, g1), SetMarker(nonce, g2), Resync(again, g3), PutLands, ReadBack];
            && Run(id, done + call).Some?
            && Returned(Run(id, done).value, Run(id, done + call).value, nonce)
  {
    hide Step, Inv, Run, Log, Core;
    var s := Run(id, done).value;
    RunKeeps(id, done);
    CallBegins(s, wrote, g1);
    var one := RunMore(id, done, Sync(wrote, g1));
    RestSucceeds(id, one, nonce, g2, again, g3);
    assert one + [SetMarker(nonce, g2), Resync(again, g3), PutLands, ReadBack]
        == done + [Sync(wrote, g1), SetMarker(nonce, g2), Resync(again, g3), PutLands, ReadBack];
  }

  /** So does the genesis of a pool that has no anchors: it publishes anchor 0, of the pool as it was created. */
  lemma GenesisSucceeds(id: PoolIdentity, done: seq<Action>, guid: nat, txg: nat, nonce: bytes, g2: nat, again: bool, g3: nat)
    requires Run(id, done).Some? && Run(id, done).value.session.None? && Run(id, done).value.world.anchors == []
    requires nonce !in Run(id, done).value.world.nonces
    ensures var genesis := [Create(guid, txg), SetMarker(nonce, g2), Resync(again, g3), PutLands, ReadBack];
            && Run(id, done + genesis).Some?
            && var s := Run(id, done + genesis).value;
            && s.session.Some? && s.session.value.line != [] && s.session.value.phase.Idle?
            && s.session.value.newest == At(Tip(s.world)) && s.world.acked == []
            && s.world.anchors == [Anchor(0, Zero, Run(id, done).value.world.id, guid, Last(s.session.value.line).txg, nonce)]
            && Last(s.session.value.line).txg > txg
  {
    hide Inv, Run, Core;
    var one := RunMore(id, done, Create(guid, txg));
    var live := Run(id, one).value.session.value;
    assert live.line == [] + [Version(txg, guid, None, [])];
    LogOfGrown([], Version(txg, guid, None, []));
    hide Step;
    RestSucceeds(id, one, nonce, g2, again, g3);
    assert one + [SetMarker(nonce, g2), Resync(again, g3), PutLands, ReadBack]
        == done + [Create(guid, txg), SetMarker(nonce, g2), Resync(again, g3), PutLands, ReadBack];
  }
}
