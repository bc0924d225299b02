/** The roots bucket: objects under a retention lock, read by their first version. The host can hide an
    object under a delete marker but can neither change nor remove what was retained. */
module Roots {
  import opened Wrappers

  datatype Slot<+B> = Slot(retained: Option<B>, hidden: bool)

  type Bucket<K(==), B> = map<K, Slot<B>>

  function SlotAt<K(!new), B>(bucket: Bucket<K, B>, key: K): Slot<B> {
    if key in bucket then bucket[key] else Slot(None, false)
  }

  /** The retained version of a key, beneath any delete marker. */
  function Retained<K(!new), B>(bucket: Bucket<K, B>, key: K): Option<B> {
    SlotAt(bucket, key).retained
  }

  /** A conditional PUT goes through when the current version is not an object. */
  predicate PutSucceeds<K(!new), B>(bucket: Bucket<K, B>, key: K) {
    SlotAt(bucket, key).retained.None? || SlotAt(bucket, key).hidden
  }

  function Put<K(!new), B>(bucket: Bucket<K, B>, key: K, body: B): (b: Bucket<K, B>)
    ensures PutSucceeds(bucket, key) ==> Retained(b, key).Some? && !SlotAt(b, key).hidden
    ensures Retained(bucket, key).None? ==> Retained(b, key) == Some(body)
    ensures !PutSucceeds(bucket, key) ==> SlotAt(b, key) == SlotAt(bucket, key)
    ensures forall k :: Retained(bucket, k).Some? ==> Retained(b, k) == Retained(bucket, k)
    ensures forall k :: k != key ==> SlotAt(b, k) == SlotAt(bucket, k)
  {
    if !PutSucceeds(bucket, key) then bucket
    else bucket[key := Slot(if Retained(bucket, key).None? then Some(body) else Retained(bucket, key), false)]
  }

  /** A delete marker over an object. */
  function Hide<K(!new), B>(bucket: Bucket<K, B>, key: K): (b: Bucket<K, B>)
    ensures forall k :: Retained(b, k) == Retained(bucket, k)
    ensures Retained(bucket, key).Some? ==> PutSucceeds(b, key)
    ensures forall k :: k != key ==> SlotAt(b, k) == SlotAt(bucket, k)
  {
    if Retained(bucket, key).None? then bucket else bucket[key := SlotAt(bucket, key).(hidden := true)]
  }
}
