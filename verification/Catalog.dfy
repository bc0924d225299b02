/** One disk cut into regions, and the catalog that gives each tenant one. */
module Catalog {
  import opened Wrappers
  import opened Numbers

  // ---- regions ------------------------------------------------------------

  /** A stretch of the disk, in sectors. */
  datatype Extent = Extent(offset: nat, length: nat)

  function Checked(n: nat): Option<nat> {
    if n < U64 then Some(n) else None
  }

  /** Where a region lies, or nothing if it does not fit. */
  function RegionBounds(index: nat, region: nat, disk: nat): Option<Extent> {
    var offset := Checked(index * region);
    if offset.None? then None
    else
      var end := Checked(offset.value + region);
      if end.None? || end.value > disk then None else Some(Extent(offset.value, region))
  }

  /** How many whole regions a disk holds. */
  function RegionCount(region: nat, disk: nat): nat {
    disk / (if region > 1 then region else 1)
  }

  /** A region has a place exactly while its index is below the count, unless regions have no size. */
  lemma BoundsIffCounted(index: nat, region: nat, disk: nat)
    requires disk < U64
    ensures RegionBounds(index, region, disk).Some? <==> index < RegionCount(region, disk) || region == 0
  {
    if region > 0 {
      FitsIffBelow(index, region, disk);
    }
  }

  lemma FitsIffBelow(index: nat, region: nat, disk: nat)
    requires region > 0
    ensures index * region + region <= disk <==> index < disk / region
  {
    var count, rest := disk / region, disk % region;
    assert disk == region * count + rest && rest < region;
    Times(index, region);
    Times(count, region);
    if index < count {
      MulMono(index + 1, count, region);
    } else {
      MulMono(count + 1, index + 1, region);
    }
  }

  lemma Times(a: nat, c: nat)
    ensures (a + 1) * c == a * c + c && a * c == c * a
  {
  }

  lemma MulMono(a: nat, b: nat, c: nat)
    requires a <= b
    ensures a * c <= b * c
  {
  }

  predicate Inside(e: Extent, disk: nat) {
    e.offset + e.length <= disk
  }

  predicate Disjoint(e: Extent, f: Extent) {
    e.offset + e.length <= f.offset || f.offset + f.length <= e.offset
  }

  /** Regions lie inside the disk, and no two share a sector. */
  lemma RegionsApart(i: nat, j: nat, region: nat, disk: nat)
    requires i != j && RegionBounds(i, region, disk).Some? && RegionBounds(j, region, disk).Some?
    ensures Inside(RegionBounds(i, region, disk).value, disk)
    ensures Disjoint(RegionBounds(i, region, disk).value, RegionBounds(j, region, disk).value)
  {
    if i < j {
      MulMono(i + 1, j, region);
      assert (i + 1) * region == i * region + region;
    } else {
      MulMono(j + 1, i, region);
      assert (j + 1) * region == j * region + region;
    }
  }

  /** Regions lie one behind the other from the start of the disk, each of the size regions have. */
  lemma RegionsTile(i: nat, region: nat, disk: nat)
    ensures var first, place, next := RegionBounds(0, region, disk), RegionBounds(i, region, disk), RegionBounds(i + 1, region, disk);
            && (first.Some? ==> first.value.offset == 0)
            && (place.Some? ==> place.value.length == region)
            && (next.Some? ==> place.Some? && next.value.offset == place.value.offset + region)
  {
    Times(i, region);
  }

  // ---- the catalog --------------------------------------------------------

  type TenantId = nat
  type PoolId = nat

  /** A tenant's place: which pool is theirs, where it sits, which history it must be. */
  datatype Entry = Entry(version: nat, poolId: PoolId, region: nat, genesis: nat, background: bool)

  type Entries = map<TenantId, Entry>

  ghost predicate InRange(entries: Entries, max: nat) {
    forall t :: t in entries ==> entries[t].version == 1 && 1 <= entries[t].region < max
  }

  ghost predicate Apart(entries: Entries) {
    forall t, u :: t in entries && u in entries && t != u ==>
      entries[t].region != entries[u].region && entries[t].poolId != entries[u].poolId
  }

  ghost predicate CatalogOk(entries: Entries, max: nat) {
    InRange(entries, max) && Apart(entries)
  }

  predicate Taken(entries: Entries, region: nat) {
    exists t :: t in entries && entries[t].region == region
  }

  /** The lowest region that is no tenant's. */
  ghost predicate IsFree(entries: Entries, max: nat, free: Option<nat>) {
    if free.Some? then
      && 1 <= free.value < max && !Taken(entries, free.value)
      && forall r :: 1 <= r < free.value ==> Taken(entries, r)
    else forall r :: 1 <= r < max ==> Taken(entries, r)
  }

  datatype CatalogError = DiskFull | NoEntry

  function Created(entries: Entries, tenant: TenantId, poolId: PoolId, region: nat, genesis: nat): Entries {
    entries[tenant := Entry(1, poolId, region, genesis, false)]
  }

  function Marked(entries: Entries, tenant: TenantId): Entries {
    if tenant in entries then entries[tenant := entries[tenant].(background := true)] else entries
  }

  lemma CreatedOk(entries: Entries, max: nat, tenant: TenantId, poolId: PoolId, region: nat, genesis: nat)
    requires CatalogOk(entries, max) && tenant !in entries && IsFree(entries, max, Some(region))
    requires forall t :: t in entries ==> entries[t].poolId != poolId
    ensures CatalogOk(Created(entries, tenant, poolId, region, genesis), max)
  {
    assert forall t :: t in entries ==> entries[t].region != region;
  }

  lemma MarkedOk(entries: Entries, max: nat, tenant: TenantId)
    requires CatalogOk(entries, max)
    ensures CatalogOk(Marked(entries, tenant), max)
  {
  }

  /** The extents a catalog names, and region 0, are inside the disk and share nothing. */
  lemma ExtentsApart(entries: Entries, region: nat, disk: nat, t: TenantId, u: TenantId)
    requires region > 0 && disk < U64 && CatalogOk(entries, RegionCount(region, disk))
    requires t in entries && u in entries
    ensures var place := RegionBounds(entries[t].region, region, disk);
            var control := RegionBounds(0, region, disk);
            var other := RegionBounds(entries[u].region, region, disk);
            && place.Some? && Inside(place.value, disk) && control.Some? && Disjoint(place.value, control.value)
            && other.Some? && (t != u ==> Disjoint(place.value, other.value))
  {
    BoundsIffCounted(0, region, disk);
    BoundsIffCounted(entries[t].region, region, disk);
    BoundsIffCounted(entries[u].region, region, disk);
    RegionsApart(entries[t].region, 0, region, disk);
    if t != u {
      RegionsApart(entries[t].region, entries[u].region, region, disk);
    }
  }

  // ---- the operations -----------------------------------------------------

  /** A listing of the catalog's directory. */
  ghost predicate Lists(listing: seq<(TenantId, Entry)>, entries: Entries) {
    && (forall i :: 0 <= i < |listing| ==> listing[i].0 in entries && entries[listing[i].0] == listing[i].1)
    && (forall t :: t in entries ==> exists i :: 0 <= i < |listing| && listing[i].0 == t)
    && forall i, j :: 0 <= i < j < |listing| ==> listing[i].0 != listing[j].0
  }

  datatype Refusal = UnknownVersion | OutOfRange | SharedRegion | SharedPool

  /** Whether an entry may follow those before it. */
  ghost predicate Follows(listing: seq<(TenantId, Entry)>, i: nat, max: nat)
    requires i < |listing|
  {
    var e := listing[i].1;
    && e.version == 1 && 1 <= e.region < max
    && forall j :: 0 <= j < i ==> listing[j].1.region != e.region && listing[j].1.poolId != e.poolId
  }

  lemma FollowIsOk(listing: seq<(TenantId, Entry)>, entries: Entries, max: nat)
    requires Lists(listing, entries)
    ensures CatalogOk(entries, max) <==> forall i :: 0 <= i < |listing| ==> Follows(listing, i, max)
  {
    if forall i :: 0 <= i < |listing| ==> Follows(listing, i, max) {
      forall t, u | t in entries && u in entries && t != u
        ensures entries[t].region != entries[u].region && entries[t].poolId != entries[u].poolId
      {
        var i :| 0 <= i < |listing| && listing[i].0 == t;
        var j :| 0 <= j < |listing| && listing[j].0 == u;
        assert Follows(listing, i, max) && Follows(listing, j, max);
      }
      forall t | t in entries ensures entries[t].version == 1 && 1 <= entries[t].region < max {
        var i :| 0 <= i < |listing| && listing[i].0 == t;
        assert Follows(listing, i, max);
      }
    }
  }

  /** At boot the catalog is taken exactly when its entries are of this version, its regions in range and
      distinct, and its pool ids distinct. */
  method Validate(listing: seq<(TenantId, Entry)>, max: nat, ghost entries: Entries) returns (r: Result<(), Refusal>)
    requires Lists(listing, entries)
    ensures r.Ok? <==> CatalogOk(entries, max)
  {
    FollowIsOk(listing, entries, max);
    var regions: set<nat>, ids: set<PoolId> := {}, {};
    for i := 0 to |listing|
      invariant forall j :: 0 <= j < i ==> Follows(listing, j, max)
      invariant regions == set j | 0 <= j < i :: listing[j].1.region
      invariant ids == set j | 0 <= j < i :: listing[j].1.poolId
    {
      var e := listing[i].1;
      assert Follows(listing, i, max) <==>
             e.version == 1 && 1 <= e.region < max && e.region !in regions && e.poolId !in ids;
      if e.version != 1 {
        return Err(UnknownVersion);
      }
      if e.region < 1 || e.region >= max {
        return Err(OutOfRange);
      }
      if e.region in regions {
        return Err(SharedRegion);
      }
      regions := regions + {e.region};
      if e.poolId in ids {
        return Err(SharedPool);
      }
      ids := ids + {e.poolId};
    }
    return Ok(());
  }

  /** The catalog's directory on the control pool. */
  class CatalogDir {
    var entries: Entries

    constructor (entries: Entries)
      ensures this.entries == entries
    {
      this.entries := entries;
    }

    method FreeRegion(max: nat) returns (free: Option<nat>)
      ensures IsFree(entries, max, free)
    {
      var taken := set t | t in entries :: entries[t].region;
      assert forall r :: r in taken <==> Taken(entries, r);
      var r := 1;
      while r < max
        invariant r >= 1 && forall q :: 1 <= q < r ==> Taken(entries, q)
      {
        if r !in taken {
          return Some(r);
        }
        r := r + 1;
      }
      return None;
    }

    /** A new tenant's entry, in the lowest free region; refused when the disk is full. */
    method Create(tenant: TenantId, poolId: PoolId, genesis: nat, max: nat) returns (r: Result<nat, CatalogError>)
      requires tenant !in entries
      modifies this
      ensures r.Ok? ==> IsFree(old(entries), max, Some(r.value)) && entries == Created(old(entries), tenant, poolId, r.value, genesis)
      ensures r.Err? ==> IsFree(old(entries), max, None) && entries == old(entries)
      ensures r.Ok? ==>
                && entries.Keys == old(entries).Keys + {tenant}
                && entries[tenant].poolId == poolId && entries[tenant].region == r.value && entries[tenant].genesis == genesis
                && !entries[tenant].background && forall t :: t in old(entries) ==> entries[t] == old(entries)[t]
    {
      var free := FreeRegion(max);
      if free.None? {
        return Err(DiskFull);
      }
      entries := entries[tenant := Entry(1, poolId, free.value, genesis, false)];
      return Ok(free.value);
    }

    /** Flag a tenant as having background work; nothing is written if it is flagged already. */
    method MarkBackground(tenant: TenantId) returns (r: Result<bool, CatalogError>)
      modifies this
      ensures entries == Marked(old(entries), tenant)
      ensures r.Err? <==> tenant !in old(entries)
      ensures r.Ok? ==> r.value == !old(entries)[tenant].background
      ensures r.Err? ==> entries == old(entries)
      ensures r.Ok? ==>
                && entries.Keys == old(entries).Keys && entries[tenant].background
                && entries[tenant].(background := old(entries)[tenant].background) == old(entries)[tenant]
                && forall t :: t in entries && t != tenant ==> entries[t] == old(entries)[t]
    {
      if tenant !in entries {
        return Err(NoEntry);
      }
      if entries[tenant].background {
        return Ok(false);
      }
      entries := entries[tenant := entries[tenant].(background := true)];
      return Ok(true);
    }
  }
}
