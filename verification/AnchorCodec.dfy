/** An anchor as it is stored: a fixed layout under a signature. */
module AnchorCodec {
  import opened Wrappers
  import opened Numbers
  import opened Anchors

  const MAGIC: bytes := [0x5a, 0x46, 0x53, 0x41, 0x4e, 0x43, 0x48, 0x32]

  const OFF_SEQ := 8
  const OFF_PREV := OFF_SEQ + 8
  const OFF_FS_UUID := OFF_PREV + 32
  const OFF_KIND := OFF_FS_UUID + 16
  const OFF_POOL_ID := OFF_KIND + 1
  const OFF_TENANT_ID := OFF_POOL_ID + 16
  const OFF_POOL_GUID := OFF_TENANT_ID + 16
  const OFF_TXG := OFF_POOL_GUID + 8
  const OFF_NONCE := OFF_TXG + 8
  const OFF_PUBKEY := OFF_NONCE + 32
  const SIGNED_LEN := OFF_PUBKEY + 32
  const ANCHOR_LEN := SIGNED_LEN + 64

  const ZERO_HASH: bytes := seq(32, _ => 0)

  /** What the enclave signs and hashes with. */
  datatype Keys = Keys(publicKey: bytes, fsUuid: bytes, sign: bytes -> bytes, verifies: (bytes, bytes) -> bool, digest: bytes -> bytes)

  /** Keys of the right sizes, whose own signatures verify. */
  ghost predicate Sound(keys: Keys) {
    && |keys.publicKey| == 32 && |keys.fsUuid| == 16
    && forall m: bytes :: |keys.sign(m)| == 64 && keys.verifies(m, keys.sign(m)) && |keys.digest(m)| == 32
  }

  /** Fields of the sizes the layout gives them. */
  predicate Fits(a: Anchor<bytes>) {
    && a.num < U64 && a.guid < U64 && a.txg < U64
    && |a.prev| == 32 && |a.nonce| == 32 && |a.id.poolId| == 16 && |a.id.tenantId| == 16
  }

  /** An anchor with the octets it was sealed in or read from. */
  datatype Sealed = Sealed(anchor: Anchor<bytes>, encoded: bytes)

  datatype AnchorError =
    NotAnAnchor | WrongKey | BadSignature | OtherFilesystem | OtherPool | UnknownKind | WrongNumber | GenesisHasPredecessor

  function KindByte(kind: PoolKind): byte {
    match kind
    case Control => 0
    case Tenant => 1
  }

  function KindOf(b: byte): Option<PoolKind> {
    if b == 0 then Some(Control) else if b == 1 then Some(Tenant) else None
  }

  // ---- layout -------------------------------------------------------------

  function Head(a: Anchor<bytes>): bytes {
    MAGIC + Fixed(a.num, 8) + a.prev
  }

  function Middle(keys: Keys, a: Anchor<bytes>): bytes {
    keys.fsUuid + [KindByte(a.id.kind)] + a.id.poolId + a.id.tenantId
  }

  function Foot(keys: Keys, a: Anchor<bytes>): bytes {
    Fixed(a.guid, 8) + Fixed(a.txg, 8) + a.nonce + keys.publicKey
  }

  /** What is signed. */
  function Layout(keys: Keys, a: Anchor<bytes>): bytes {
    Head(a) + Middle(keys, a) + Foot(keys, a)
  }

  /** The anchor after `prev`, sealed. Its number wraps as the machine's does. */
  function Seal(keys: Keys, prev: Option<Sealed>, id: PoolIdentity, guid: nat, txg: nat, nonce: bytes): Sealed {
    var num := if prev.None? then 0 else (prev.value.anchor.num + 1) % U64;
    var hash := if prev.None? then ZERO_HASH else keys.digest(prev.value.encoded);
    var a := Anchor(num, hash, id, guid, txg, nonce);
    Sealed(a, Layout(keys, a) + keys.sign(Layout(keys, a)))
  }

  function U64At(b: bytes, off: nat): nat
    requires off + 8 <= |b|
  {
    BigEndian(b[off..off + 8])
  }

  function DecodeAndVerify(b: bytes, keys: Keys, num: nat, poolId: bytes): Result<Sealed, AnchorError> {
    if |b| != ANCHOR_LEN || b[..8] != MAGIC then Err(NotAnAnchor)
    else if b[OFF_PUBKEY..SIGNED_LEN] != keys.publicKey then Err(WrongKey)
    else if !keys.verifies(b[..SIGNED_LEN], b[SIGNED_LEN..]) then Err(BadSignature)
    else if b[OFF_FS_UUID..OFF_KIND] != keys.fsUuid then Err(OtherFilesystem)
    else if b[OFF_POOL_ID..OFF_TENANT_ID] != poolId then Err(OtherPool)
    else
      var kind := KindOf(b[OFF_KIND]);
      if kind.None? then Err(UnknownKind)
      else
        var found := U64At(b, OFF_SEQ);
        if found != num then Err(WrongNumber)
        else
          var prev := b[OFF_PREV..OFF_FS_UUID];
          if found == 0 && prev != ZERO_HASH then Err(GenesisHasPredecessor)
          else
            var id := PoolIdentity(kind.value, b[OFF_POOL_ID..OFF_TENANT_ID], b[OFF_TENANT_ID..OFF_POOL_GUID]);
            Ok(Sealed(Anchor(found, prev, id, U64At(b, OFF_POOL_GUID), U64At(b, OFF_TXG), b[OFF_NONCE..OFF_PUBKEY]), b))
  }

  // ---- where each field lies ----------------------------------------------

  lemma Thirds(head: bytes, middle: bytes, foot: bytes, from: nat, to: nat, sig: bytes)
    requires |head| == OFF_FS_UUID && |middle| == OFF_POOL_GUID - OFF_FS_UUID && |foot| == SIGNED_LEN - OFF_POOL_GUID
    requires from <= to
    ensures var b := head + middle + foot + sig;
            && b[..SIGNED_LEN] == head + middle + foot && b[SIGNED_LEN..] == sig
            && (to <= |head| ==> b[from..to] == head[from..to])
            && (to <= |middle| ==> b[|head| + from..|head| + to] == middle[from..to])
            && (to <= |foot| ==> b[|head| + |middle| + from..|head| + |middle| + to] == foot[from..to])
  {
  }

  lemma HeadFields(a: Anchor<bytes>)
    requires Fits(a)
    ensures |Head(a)| == 48 && Head(a)[0..8] == MAGIC && Head(a)[8..16] == Fixed(a.num, 8) && Head(a)[16..48] == a.prev
  {
  }

  lemma MiddleFields(keys: Keys, a: Anchor<bytes>)
    requires Fits(a) && Sound(keys)
    ensures var m := Middle(keys, a);
            |m| == 49 && m[0..16] == keys.fsUuid && m[16..17] == [KindByte(a.id.kind)] && m[17..33] == a.id.poolId && m[33..49] == a.id.tenantId
  {
  }

  lemma FootFields(keys: Keys, a: Anchor<bytes>)
    requires Fits(a) && Sound(keys)
    ensures var f := Foot(keys, a);
            |f| == 80 && f[0..8] == Fixed(a.guid, 8) && f[8..16] == Fixed(a.txg, 8) && f[16..48] == a.nonce && f[48..80] == keys.publicKey
  {
  }

  lemma FieldsAt(keys: Keys, a: Anchor<bytes>, sig: bytes)
    requires Fits(a) && Sound(keys) && |sig| == 64
    ensures var b := Layout(keys, a) + sig;
            && |b| == ANCHOR_LEN
            && b[..SIGNED_LEN] == Layout(keys, a) && b[SIGNED_LEN..] == sig
            && b[..8] == MAGIC && b[OFF_SEQ..OFF_PREV] == Fixed(a.num, 8) && b[OFF_PREV..OFF_FS_UUID] == a.prev
            && b[OFF_FS_UUID..OFF_KIND] == keys.fsUuid && b[OFF_KIND] == KindByte(a.id.kind)
            && b[OFF_POOL_ID..OFF_TENANT_ID] == a.id.poolId && b[OFF_TENANT_ID..OFF_POOL_GUID] == a.id.tenantId
            && b[OFF_POOL_GUID..OFF_TXG] == Fixed(a.guid, 8) && b[OFF_TXG..OFF_NONCE] == Fixed(a.txg, 8)
            && b[OFF_NONCE..OFF_PUBKEY] == a.nonce && b[OFF_PUBKEY..SIGNED_LEN] == keys.publicKey
  {
    var head, middle, foot := Head(a), Middle(keys, a), Foot(keys, a);
    var b := Layout(keys, a) + sig;
    HeadFields(a);
    MiddleFields(keys, a);
    FootFields(keys, a);
    hide Head, Middle, Foot, Fixed, Sound, KindByte;
    Thirds(head, middle, foot, 0, 8, sig);
    Thirds(head, middle, foot, 8, 16, sig);
    Thirds(head, middle, foot, 16, 48, sig);
    Thirds(head, middle, foot, 0, 16, sig);
    Thirds(head, middle, foot, 16, 17, sig);
    assert b[OFF_KIND] == b[OFF_KIND..OFF_POOL_ID][0];
    Thirds(head, middle, foot, 17, 33, sig);
    Thirds(head, middle, foot, 33, 49, sig);
    Thirds(head, middle, foot, 48, 80, sig);
  }

  /** Any octets of the anchor's length are their own fields, end to end. */
  lemma SlicesJoin(b: bytes)
    requires |b| == ANCHOR_LEN
    ensures b == (b[..8] + b[OFF_SEQ..OFF_PREV] + b[OFF_PREV..OFF_FS_UUID])
               + (b[OFF_FS_UUID..OFF_KIND] + [b[OFF_KIND]] + b[OFF_POOL_ID..OFF_TENANT_ID] + b[OFF_TENANT_ID..OFF_POOL_GUID])
               + (b[OFF_POOL_GUID..OFF_TXG] + b[OFF_TXG..OFF_NONCE] + b[OFF_NONCE..OFF_PUBKEY] + b[OFF_PUBKEY..SIGNED_LEN])
               + b[SIGNED_LEN..]
  {
    assert b[..48] == b[..8] + b[OFF_SEQ..OFF_PREV] + b[OFF_PREV..OFF_FS_UUID];
    assert b[48..97] == b[OFF_FS_UUID..OFF_KIND] + [b[OFF_KIND]] + b[OFF_POOL_ID..OFF_TENANT_ID] + b[OFF_TENANT_ID..OFF_POOL_GUID];
    assert b[97..177] == b[OFF_POOL_GUID..OFF_TXG] + b[OFF_TXG..OFF_NONCE] + b[OFF_NONCE..OFF_PUBKEY] + b[OFF_PUBKEY..SIGNED_LEN];
    assert b == b[..48] + b[48..97] + b[97..177] + b[177..];
  }

  // ---- what is accepted ---------------------------------------------------

  /** The layout of these fields under some signature that verifies, for this number and pool. */
  ghost predicate Reads(b: bytes, keys: Keys, num: nat, poolId: bytes, s: Sealed) {
    && s.encoded == b && |b| == ANCHOR_LEN && Fits(s.anchor)
    && b == Layout(keys, s.anchor) + b[SIGNED_LEN..]
    && keys.verifies(Layout(keys, s.anchor), b[SIGNED_LEN..])
    && s.anchor.num == num && s.anchor.id.poolId == poolId
    && (num == 0 ==> s.anchor.prev == ZERO_HASH)
  }

  lemma NumbersRead(a: Anchor<bytes>)
    requires Fits(a)
    ensures BigEndian(Fixed(a.num, 8)) == a.num && BigEndian(Fixed(a.guid, 8)) == a.guid && BigEndian(Fixed(a.txg, 8)) == a.txg
  {
    EightOctets();
    FixedReads(a.num, 8);
    FixedReads(a.guid, 8);
    FixedReads(a.txg, 8);
  }

  lemma ReadsDecodes(b: bytes, keys: Keys, num: nat, poolId: bytes, s: Sealed)
    requires Sound(keys) && Reads(b, keys, num, poolId, s)
    ensures DecodeAndVerify(b, keys, num, poolId) == Ok(s)
  {
    hide Layout, Fixed, BigEndian, Sound;
    FieldsAt(keys, s.anchor, b[SIGNED_LEN..]);
    NumbersRead(s.anchor);
    hide Fits;
  }

  lemma NumbersFit(b: bytes)
    requires |b| == 8
    ensures BigEndian(b) < U64 && Fixed(BigEndian(b), 8) == b
  {
    EightOctets();
    ReadsFixed(b);
  }

  lemma DecodedFits(b: bytes, keys: Keys, num: nat, poolId: bytes, s: Sealed)
    requires Sound(keys) && DecodeAndVerify(b, keys, num, poolId) == Ok(s)
    ensures |b| == ANCHOR_LEN && s.encoded == b && Fits(s.anchor) && s.anchor.num == num && s.anchor.id.poolId == poolId
    ensures num == 0 ==> s.anchor.prev == ZERO_HASH
    ensures keys.verifies(b[..SIGNED_LEN], b[SIGNED_LEN..])
  {
    hide Fixed, BigEndian, Sound;
    NumbersFit(b[OFF_SEQ..OFF_PREV]);
    NumbersFit(b[OFF_POOL_GUID..OFF_TXG]);
    NumbersFit(b[OFF_TXG..OFF_NONCE]);
  }

  lemma DecodedIsLayout(b: bytes, keys: Keys, num: nat, poolId: bytes, s: Sealed)
    requires DecodeAndVerify(b, keys, num, poolId) == Ok(s)
    ensures b == Layout(keys, s.anchor) + b[SIGNED_LEN..]
  {
    ReadsFixed(b[OFF_SEQ..OFF_PREV]);
    ReadsFixed(b[OFF_POOL_GUID..OFF_TXG]);
    ReadsFixed(b[OFF_TXG..OFF_NONCE]);
    SlicesJoin(b);
    hide Fixed, BigEndian;
  }

  lemma DecodesReads(b: bytes, keys: Keys, num: nat, poolId: bytes, s: Sealed)
    requires Sound(keys) && DecodeAndVerify(b, keys, num, poolId) == Ok(s)
    ensures Reads(b, keys, num, poolId, s)
  {
    DecodedFits(b, keys, num, poolId, s);
    DecodedIsLayout(b, keys, num, poolId, s);
    hide DecodeAndVerify, Layout, Fits;
    assert b[..SIGNED_LEN] == Layout(keys, s.anchor);
  }

  /** The reader accepts exactly the layout of the fields it returns, signed, for the number and the pool
      it was asked about. */
  lemma AcceptsExactly(b: bytes, keys: Keys, num: nat, poolId: bytes, s: Sealed)
    requires Sound(keys)
    ensures DecodeAndVerify(b, keys, num, poolId) == Ok(s) <==> Reads(b, keys, num, poolId, s)
  {
    if Reads(b, keys, num, poolId, s) {
      ReadsDecodes(b, keys, num, poolId, s);
    }
    if DecodeAndVerify(b, keys, num, poolId) == Ok(s) {
      DecodesReads(b, keys, num, poolId, s);
    }
  }

  /** What was sealed reads back as it was, unless its number wrapped to the first one's. */
  lemma SealedReadsBack(keys: Keys, prev: Option<Sealed>, id: PoolIdentity, guid: nat, txg: nat, nonce: bytes)
    requires Sound(keys)
    requires guid < U64 && txg < U64 && |nonce| == 32 && |id.poolId| == 16 && |id.tenantId| == 16
    ensures var s := Seal(keys, prev, id, guid, txg, nonce);
            DecodeAndVerify(s.encoded, keys, s.anchor.num, id.poolId) ==
            if s.anchor.num == 0 && s.anchor.prev != ZERO_HASH then Err(GenesisHasPredecessor) else Ok(s)
    ensures var a := Seal(keys, prev, id, guid, txg, nonce).anchor;
            && a.id == id && a.guid == guid && a.txg == txg && a.nonce == nonce
            && (prev.None? ==> a.num == 0 && a.prev == ZERO_HASH)
            && (prev.Some? ==> a.num == (prev.value.anchor.num + 1) % U64 && a.prev == keys.digest(prev.value.encoded))
  {
    var s := Seal(keys, prev, id, guid, txg, nonce);
    var a := s.anchor;
    FieldsAt(keys, a, keys.sign(Layout(keys, a)));
    if a.num == 0 && a.prev != ZERO_HASH {
      EightOctets();
      FixedReads(a.num, 8);
    } else {
      ReadsDecodes(s.encoded, keys, a.num, id.poolId, s);
    }
    hide Layout, Fixed, BigEndian, Sound, Reads, Power256;
  }

  /** Octets are an anchor for one number and one pool at most, and the anchor they are does not depend on which
      was asked for. */
  lemma OctetsFixAnchor(keys: Keys, b: bytes, m: nat, n: nat, p: bytes, q: bytes)
    requires Sound(keys)
    requires DecodeAndVerify(b, keys, m, p).Ok? && DecodeAndVerify(b, keys, n, q).Ok?
    ensures m == n && p == q && DecodeAndVerify(b, keys, m, p) == DecodeAndVerify(b, keys, n, q)
  {
    var one, other := DecodeAndVerify(b, keys, m, p).value, DecodeAndVerify(b, keys, n, q).value;
    DecodesReads(b, keys, m, p, one);
    DecodesReads(b, keys, n, q, other);
    hide DecodeAndVerify, Layout, Fits;
    LayoutInjective(keys, one.anchor, other.anchor);
  }

  /** Two accepted strings, whatever each was asked for, that hash alike are one anchor for one number and one
      pool, or else a collision of the digest. */
  lemma SameDigestOrCollision(keys: Keys, a: bytes, b: bytes, m: nat, n: nat, p: bytes, q: bytes)
    requires Sound(keys) && keys.digest(a) == keys.digest(b)
    requires DecodeAndVerify(a, keys, m, p).Ok? && DecodeAndVerify(b, keys, n, q).Ok?
    ensures || (DecodeAndVerify(a, keys, m, p) == DecodeAndVerify(b, keys, n, q) && m == n && p == q)
            || a != b
  {
    hide DecodeAndVerify;
    if a == b {
      OctetsFixAnchor(keys, a, m, n, p, q);
    }
  }

  /** Different anchors have different layouts. */
  lemma LayoutInjective(keys: Keys, a: Anchor<bytes>, b: Anchor<bytes>)
    requires Sound(keys) && Fits(a) && Fits(b) && Layout(keys, a) == Layout(keys, b)
    ensures a == b
  {
    var sig: bytes := seq(64, _ => 0);
    FieldsAt(keys, a, sig);
    FieldsAt(keys, b, sig);
    NumbersRead(a);
    NumbersRead(b);
    hide Layout, Fixed, BigEndian, Sound;
  }
}
