/** Numbers as octets, most significant first. */
module Numbers {
  import opened Wrappers

  const U64: nat := 0x1_0000_0000_0000_0000

  function BigEndian(b: bytes): nat {
    if b == [] then 0 else 256 * BigEndian(b[..|b| - 1]) + b[|b| - 1]
  }

  function Power256(k: nat): nat {
    if k == 0 then 1 else 256 * Power256(k - 1)
  }

  lemma {:induction false} PowerAtLeast(k: nat)
    requires k >= 1
    ensures Power256(k) >= 256
  {
    if k > 1 {
      PowerAtLeast(k - 1);
    }
  }

  /** A number in `k` octets. */
  function Fixed(n: nat, k: nat): (b: bytes)
    ensures |b| == k
  {
    if k == 0 then [] else Fixed(n / 256, k - 1) + [n % 256]
  }

  lemma {:induction false} FixedReads(n: nat, k: nat)
    requires n < Power256(k)
    ensures BigEndian(Fixed(n, k)) == n
    decreases k
  {
    if k > 0 {
      FixedReads(n / 256, k - 1);
      assert Fixed(n, k)[..k - 1] == Fixed(n / 256, k - 1);
    }
  }

  lemma {:induction false} ReadsFixed(b: bytes)
    ensures BigEndian(b) < Power256(|b|) && Fixed(BigEndian(b), |b|) == b
    decreases |b|
  {
    if b != [] {
      ReadsFixed(b[..|b| - 1]);
      assert BigEndian(b) / 256 == BigEndian(b[..|b| - 1]) && BigEndian(b) % 256 == b[|b| - 1];
    }
  }

  /** The octet in front counts most. */
  lemma {:induction false} FrontCountsMost(front: byte, rest: bytes)
    ensures BigEndian([front] + rest) == front * Power256(|rest|) + BigEndian(rest)
    decreases |rest|
  {
    var b := [front] + rest;
    if rest == [] {
      assert b[..0] == [];
    } else {
      FrontCountsMost(front, rest[..|rest| - 1]);
      assert b[..|rest|] == [front] + rest[..|rest| - 1];
    }
  }

  lemma EightOctets()
    ensures Power256(8) == U64
  {
  }
}
