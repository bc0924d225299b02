/** The catalog over whole runs: creations, crashes, and boots that find any state the last anchor allows. */
module CatalogRuns {
  import opened Wrappers
  import opened Numbers
  import opened Pools
  import opened Catalog

  /** The control pool, and where the line of states in use begins: a restart goes on from a state it found, and
      what was reached before, on whatever line, stays behind it for the host to show again. */
  datatype Control = Control(pool: Pool<Entries>, began: nat)

  type World = w: Control | w.began < |w.pool.history| && w.pool.floor < |w.pool.history| witness Control(Pool([map[]], 0), 0)

  const Empty: World := Control(Pool([map[]], 0), 0)

  /** A creation under a pool id no entry has, a flag, an anchor that covers the line in use up to `upto`, and a
      restart on the `found`-th state. */
  datatype Action =
    | Create(tenant: TenantId, poolId: PoolId, genesis: nat)
    | Mark(tenant: TenantId)
    | Anchor(upto: nat)
    | Restart(found: nat)

  ghost function Lowest(entries: Entries, max: nat): (free: Option<nat>)
    ensures IsFree(entries, max, free)
  {
    LowestFrom(entries, max, 1)
  }

  ghost function LowestFrom(entries: Entries, max: nat, r: nat): (free: Option<nat>)
    requires 1 <= r && forall q :: 1 <= q < r ==> Taken(entries, q)
    ensures IsFree(entries, max, free)
    decreases max - r
  {
    if r >= max then None else if !Taken(entries, r) then Some(r) else LowestFrom(entries, max, r + 1)
  }

  /** The lowest free region is one: what `CatalogDir.Create` writes is determined. */
  lemma LowestUnique(entries: Entries, max: nat, one: Option<nat>, other: Option<nat>)
    requires IsFree(entries, max, one) && IsFree(entries, max, other)
    ensures one == other
  {
  }

  ghost predicate FreshPool(entries: Entries, poolId: PoolId) {
    forall t :: t in entries ==> entries[t].poolId != poolId
  }

  ghost function Write(w: World, entries: Entries): World {
    w.(pool := Changed(w.pool, entries))
  }

  ghost function Next(w: World, max: nat, action: Action): World {
    var now := Current(w.pool);
    match action
    case Create(tenant, poolId, genesis) =>
      var free := Lowest(now, max);
      if tenant in now || free.None? || !FreshPool(now, poolId) then w
      else Write(w, Created(now, tenant, poolId, free.value, genesis))
    case Mark(tenant) => Write(w, Marked(now, tenant))
    case Anchor(upto) => if w.began <= upto < |w.pool.history| then w.(pool := Anchored(w.pool, upto)) else w
    case Restart(found) =>
      if Revealable(w.pool, found) then Control(Changed(w.pool, w.pool.history[found]), |w.pool.history|) else w
  }

  ghost function Run(w: World, max: nat, actions: seq<Action>): World {
    if actions == [] then w else Next(Run(w, max, actions[..|actions| - 1]), max, actions[|actions| - 1])
  }

  /** A later catalog has every tenant an earlier one had, in the same place. */
  ghost predicate Extends(before: Entries, after: Entries) {
    forall t :: t in before ==>
      && t in after && after[t].poolId == before[t].poolId && after[t].region == before[t].region
      && after[t].genesis == before[t].genesis && (before[t].background ==> after[t].background)
  }

  /** Every catalog there has been is in order, the line in use only grows, and whatever the host can still show
      extends the catalog last anchored. */
  ghost predicate Inv(w: World, max: nat) {
    var h := w.pool.history;
    && (forall i :: 0 <= i < |h| ==> CatalogOk(h[i], max))
    && (forall i, j :: w.began <= i < j < |h| ==> Extends(h[i], h[j]))
    && forall i :: w.pool.floor <= i < |h| ==> Extends(h[w.pool.floor], h[i])
  }

  lemma ExtendsOn(a: Entries, b: Entries, c: Entries)
    requires Extends(a, b) && Extends(b, c)
    ensures Extends(a, c)
  {
  }

  lemma WriteKeeps(w: World, max: nat, entries: Entries)
    requires Inv(w, max) && CatalogOk(entries, max) && Extends(Current(w.pool), entries)
    ensures Inv(Write(w, entries), max)
  {
    var h, next := w.pool.history, Write(w, entries).pool.history;
    var last := |h| - 1;
    hide CatalogOk;
    assert Extends(h[w.pool.floor], h[last]);
    ExtendsOn(h[w.pool.floor], h[last], entries);
    forall i | w.began <= i < |h| ensures Extends(h[i], entries) {
      if i < last {
        ExtendsOn(h[i], h[last], entries);
      }
    }
    hide Extends;
    assert forall i :: 0 <= i < |h| ==> next[i] == h[i];
  }

  lemma RestartKeeps(w: World, max: nat, found: nat)
    requires Inv(w, max) && Revealable(w.pool, found)
    ensures Inv(Next(w, max, Restart(found)), max)
  {
    hide CatalogOk, Extends;
    var h, next := w.pool.history, Next(w, max, Restart(found)).pool.history;
    assert forall i :: 0 <= i < |h| ==> next[i] == h[i];
  }

  /** An anchor rules out the lines left behind along with everything older on its own. */
  lemma AnchorKeeps(w: World, max: nat, upto: nat)
    requires Inv(w, max)
    ensures Inv(Next(w, max, Anchor(upto)), max)
  {
    forall e: Entries ensures Extends(e, e) {
    }
    hide CatalogOk, Extends;
  }

  lemma NextKeeps(w: World, max: nat, action: Action)
    requires Inv(w, max)
    ensures Inv(Next(w, max, action), max)
  {
    var now := Current(w.pool);
    match action
    case Create(tenant, poolId, genesis) =>
      var free := Lowest(now, max);
      if tenant !in now && free.Some? && FreshPool(now, poolId) {
        CreatedOk(now, max, tenant, poolId, free.value, genesis);
        WriteKeeps(w, max, Created(now, tenant, poolId, free.value, genesis));
      }
    case Mark(tenant) =>
      MarkedOk(now, max, tenant);
      WriteKeeps(w, max, Marked(now, tenant));
    case Anchor(upto) => AnchorKeeps(w, max, upto);
    case Restart(found) =>
      if Revealable(w.pool, found) {
        RestartKeeps(w, max, found);
      }
  }

  lemma {:induction false} RunKeeps(w: World, max: nat, actions: seq<Action>)
    requires Inv(w, max)
    ensures Inv(Run(w, max, actions), max)
  {
    if actions != [] {
      RunKeeps(w, max, actions[..|actions| - 1]);
      hide Inv, Next;
      NextKeeps(Run(w, max, actions[..|actions| - 1]), max, actions[|actions| - 1]);
    }
  }

  /** Every catalog a boot can ever find, on the line in use or on one left behind, is accepted. */
  lemma FoundIsAccepted(max: nat, actions: seq<Action>, i: nat)
    requires Revealable(Run(Empty, max, actions).pool, i)
    ensures CatalogOk(Run(Empty, max, actions).pool.history[i], max)
  {
    RunKeeps(Empty, max, actions);
    hide CatalogOk, Extends, Run;
  }

  /** The extents such a catalog names are inside the disk, off region 0 and pairwise disjoint. */
  lemma FoundExtentsApart(actions: seq<Action>, region: nat, disk: nat, i: nat, t: TenantId, u: TenantId)
    requires region > 0 && disk < U64
    requires var pool := Run(Empty, RegionCount(region, disk), actions).pool;
             Revealable(pool, i) && t in pool.history[i] && u in pool.history[i]
    ensures var entries := Run(Empty, RegionCount(region, disk), actions).pool.history[i];
            var place := RegionBounds(entries[t].region, region, disk);
            var control := RegionBounds(0, region, disk);
            var other := RegionBounds(entries[u].region, region, disk);
            && place.Some? && Inside(place.value, disk) && control.Some? && Disjoint(place.value, control.value)
            && other.Some? && (t != u ==> Disjoint(place.value, other.value))
  {
    hide Run, RegionBounds, CatalogOk, RegionCount;
    FoundIsAccepted(RegionCount(region, disk), actions, i);
    ExtentsApart(Run(Empty, RegionCount(region, disk), actions).pool.history[i], region, disk, t, u);
  }

  /** What the host can show extends these entries. */
  ghost predicate Holds(w: World, entries: Entries) {
    forall i: nat :: Revealable(w.pool, i) ==> Extends(entries, w.pool.history[i])
  }

  /** A state not seen before extends one the host could have shown. */
  lemma NextFrom(w: World, max: nat, action: Action) returns (j: nat)
    ensures var p, next := w.pool, Next(w, max, action).pool;
            && next.floor >= p.floor && Revealable(p, j)
            && (next.history == p.history || exists e: Entries :: next.history == p.history + [e] && Extends(p.history[j], e))
  {
    j := if action.Restart? && Revealable(w.pool, action.found) then action.found else |w.pool.history| - 1;
    hide CatalogOk;
    var next := Next(w, max, action).pool.history;
    assert next == w.pool.history || (next == w.pool.history + [Current(Next(w, max, action).pool)]
                                      && Extends(w.pool.history[j], Current(Next(w, max, action).pool)));
  }

  lemma NextHolds(w: World, max: nat, action: Action, entries: Entries)
    requires Holds(w, entries)
    ensures Holds(Next(w, max, action), entries)
  {
    var j := NextFrom(w, max, action);
    var p, next := w.pool, Next(w, max, action).pool;
    hide Next;
    assert Extends(entries, p.history[j]);
    if e: Entries :| next.history == p.history + [e] && Extends(p.history[j], e) {
      ExtendsOn(entries, p.history[j], e);
    }
    hide Extends;
    forall i: nat | Revealable(next, i) ensures Extends(entries, next.history[i]) {
      assert i < |p.history| ==> Revealable(p, i) && next.history[i] == p.history[i];
    }
  }

  lemma {:induction false} RunHolds(w: World, max: nat, actions: seq<Action>, entries: Entries)
    requires Holds(w, entries)
    ensures Holds(Run(w, max, actions), entries)
  {
    if actions != [] {
      RunHolds(w, max, actions[..|actions| - 1], entries);
      hide Holds, Next;
      NextHolds(Run(w, max, actions[..|actions| - 1]), max, actions[|actions| - 1], entries);
    }
  }

  /** A tenant whose entry an anchor covered keeps its pool, its region and its history in every state any later
      boot can find, so no other tenant is ever given its region. */
  lemma AnchoredPlaceStands(max: nat, before: seq<Action>, after: seq<Action>, t: TenantId, i: nat, u: TenantId)
    requires var p := Run(Empty, max, before).pool; t in p.history[p.floor]
    requires Revealable(Run(Run(Empty, max, before), max, after).pool, i)
    ensures var w := Run(Empty, max, before);
            var anchored, found := w.pool.history[w.pool.floor], Run(w, max, after).pool.history[i];
            && t in found && found[t].poolId == anchored[t].poolId && found[t].region == anchored[t].region
            && found[t].genesis == anchored[t].genesis
            && (u in found && u != t ==> found[u].region != anchored[t].region)
  {
    var w := Run(Empty, max, before);
    RunKeeps(Empty, max, before);
    hide Run;
    RunKeeps(w, max, after);
    RunHolds(w, max, after, w.pool.history[w.pool.floor]);
  }

  /** A line left behind can come back: both catalogs are there to be found, and neither extends the other. */
  lemma LeftBehindComesBack() returns (actions: seq<Action>)
    ensures var p := Run(Empty, 3, actions).pool;
            && Revealable(p, 1) && p.history[1].Keys == {7}
            && Revealable(p, 3) && p.history[3].Keys == {8}
  {
    actions := [Create(7, 70, 700), Restart(0), Create(8, 80, 800)];
    var none: Entries := map[];
    assert Taken(none, 1) == false;
    assert Lowest(none, 3) == Some(1);
    var one := Next(Empty, 3, actions[0]);
    assert one.pool.history == [none, map[7 := Entry(1, 70, 1, 700, false)]];
    var two := Next(one, 3, actions[1]);
    assert two.pool.history == [none, map[7 := Entry(1, 70, 1, 700, false)], none];
    var three := Next(two, 3, actions[2]);
    assert three.pool.history == two.pool.history + [map[8 := Entry(1, 80, 1, 800, false)]];
    hide Next;
    assert actions[..2][..1][..0] == [] && actions[..2][..1] == actions[..1];
    assert Run(Empty, 3, actions[..1]) == one;
    assert Run(Empty, 3, actions[..2]) == two;
    assert Run(Empty, 3, actions) == three;
  }
}
