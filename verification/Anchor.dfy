/** What an anchor says, and when it vouches for a pool state. Digests are a type parameter: bytes
    where anchors are encoded, ideal digests where the protocol is followed. */
module Anchors {
  import opened Wrappers

  datatype PoolKind = Control | Tenant

  /** Which pool an anchor speaks for. */
  datatype PoolIdentity = PoolIdentity(kind: PoolKind, poolId: bytes, tenantId: bytes)

  datatype Anchor<+D> = Anchor(num: nat, prev: D, id: PoolIdentity, guid: nat, txg: nat, nonce: bytes)

  /** The value an anchor leaves in the pool it names. */
  datatype Marker<+D> = Marker(num: nat, nonce: bytes, prev: D)

  function MarkerOf<D>(anchor: Anchor<D>): Marker<D> {
    Marker(anchor.num, anchor.nonce, anchor.prev)
  }

  /** An anchor written into the pool but not published, naming `tip` as its predecessor. */
  predicate IsSuccessor<D(==)>(marker: Marker<D>, tip: Anchor<D>, hash: D) {
    marker.num == tip.num + 1 && marker.prev == hash
  }

  /** Whether the newest anchor vouches for a loaded pool state. */
  predicate Admits<D(==)>(tip: Anchor<D>, hash: D, loaded: Option<nat>, marker: Option<Marker<D>>, guid: nat) {
    && loaded.Some?
    && guid == tip.guid
    && loaded.value >= tip.txg
    && marker.Some?
    && (marker.value == MarkerOf(tip) || IsSuccessor(marker.value, tip, hash))
  }

  /** An ideal digest: the digest of an anchor determines the anchor. */
  datatype Digest = Zero | Of(anchor: Anchor<Digest>)

  /** What an enclave knows of its own newest anchor. */
  datatype Newest = Unopened | At(anchor: Anchor<Digest>) | Stopped
}
