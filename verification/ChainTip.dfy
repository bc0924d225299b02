/** Finding the newest number of a contiguous, never-deleted chain of objects. */
module ChainTip {
  import opened Wrappers

  const U64_MAX: nat := 0xFFFF_FFFF_FFFF_FFFF

  function Pow2(k: nat): (p: nat)
    ensures p > 0
  {
    if k == 0 then 1 else 2 * Pow2(k - 1)
  }

  /** The floor of the base-two logarithm of a positive number. */
  function Log2(n: nat): nat
    requires n > 0
  {
    if n == 1 then 0 else 1 + Log2(n / 2)
  }

  lemma {:induction false} Pow2Monotone(j: nat, k: nat)
    requires j <= k
    ensures Pow2(j) <= Pow2(k)
    decreases k
  {
    if j < k {
      Pow2Monotone(j, k - 1);
    }
  }

  lemma {:induction false} Pow2Sum(j: nat, k: nat)
    ensures Pow2(j + k) == Pow2(j) * Pow2(k)
  {
    if j > 0 {
      Pow2Sum(j - 1, k);
    }
  }

  lemma Pow2At64()
    ensures Pow2(64) == U64_MAX + 1
  {
    assert Pow2(4) == 0x10;
    Pow2Sum(4, 4);
    Pow2Sum(8, 8);
    Pow2Sum(16, 16);
    Pow2Sum(32, 32);
  }

  /** `Log2` inverts `Pow2` on each octave. */
  lemma {:induction false} Log2Of(n: nat, k: nat)
    requires Pow2(k) <= n < 2 * Pow2(k)
    ensures Log2(n) == k
    decreases k
  {
    if k > 0 {
      Log2Of(n / 2, k - 1);
    }
  }

  /** What one probe of the store answers: `answer(t, n)` is whether number `n` is found by the
      `t`-th probe. The chain may grow while it is being searched, so the answer depends on both. */
  type Store = (nat, nat) -> bool

  /** Nothing in the chain is ever taken away again. */
  ghost predicate Grows(answer: Store) {
    forall t: nat, u: nat, n: nat :: t <= u && answer(t, n) ==> answer(u, n)
  }

  /** The chain has no gaps at the time of probe `t`. */
  ghost predicate DownwardClosed(answer: Store, t: nat) {
    forall m: nat, n: nat :: m <= n && answer(t, n) ==> answer(t, m)
  }

  /** One of the first `probes` probes answered `yes` or no about number `n`. */
  ghost predicate Answered(answer: Store, probes: nat, n: nat, yes: bool) {
    exists t: nat :: t < probes && answer(t, n) == yes
  }

  /** Gallop, then bisect. No assumption on the store: whatever it answers, the number returned was
      found by some probe and its successor was missed by some probe, within a logarithmic number of
      probes and without any arithmetic leaving the 64-bit range. */
  method Find(answer: Store) returns (tip: Option<nat>, probes: nat)
    ensures tip.None? <==> !answer(0, 0)
    ensures tip.Some? ==>
              && tip.value <= U64_MAX
              && Answered(answer, probes, tip.value, true)
              && (tip.value < U64_MAX ==> Answered(answer, probes, tip.value + 1, false))
              && probes <= 2 * Log2(tip.value + 1) + 2
  {
    probes := 0;
    var found := answer(probes, 0);
    ghost var seen: nat, missed: nat := 0, 0;
    probes := 1;
    if !found {
      return None, probes;
    }
    var lo, step := 0, 1;
    ghost var k := 0;
    var galloping := true;
    while galloping && lo + step <= U64_MAX
      invariant k <= 64 && probes == 1 + k + (if galloping then 0 else 1)
      invariant lo == Pow2(k) - 1 <= U64_MAX
      invariant step == if k == 64 then U64_MAX else Pow2(k)
      invariant 0 <= seen < probes && answer(seen, lo)
      invariant !galloping ==> k < 64 && lo + step <= U64_MAX && 0 <= missed < probes && !answer(missed, lo + step)
      decreases galloping, U64_MAX - lo
    {
      var next := lo + step;
      found := answer(probes, next);
      if found {
        seen := probes;
        lo := next;
        if k == 63 { Pow2At64(); } else { Pow2Below(k); }
        step := if 2 * step <= U64_MAX then 2 * step else U64_MAX;
        k := k + 1;
      } else {
        missed := probes;
        galloping := false;
      }
      probes := probes + 1;
    }
    if galloping {
      GallopEnds(k);
    }
    var hi := if lo + step <= U64_MAX then lo + step else U64_MAX;
    ghost var width: nat := if galloping then 0 else k;
    while hi - lo > 1
      invariant Pow2(k) - 1 <= lo <= hi <= U64_MAX
      invariant galloping ==> lo == hi == U64_MAX && k == 64 && probes == 65
      invariant !galloping ==> width <= k && hi - lo == Pow2(width) && hi <= 2 * Pow2(k) - 1
      invariant !galloping ==> probes == 2 + k + (k - width)
      invariant 0 <= seen < probes && answer(seen, lo)
      invariant !galloping ==> 0 <= missed < probes && !answer(missed, hi)
      decreases hi - lo
    {
      var mid := lo + (hi - lo) / 2;
      assert width > 0 && hi - lo == 2 * Pow2(width - 1);
      found := answer(probes, mid);
      if found {
        seen := probes;
        lo := mid;
      } else {
        missed := probes;
        hi := mid;
      }
      probes := probes + 1;
      width := width - 1;
    }
    if galloping {
      Pow2At64();
      Log2Of(lo + 1, 64);
    } else {
      assert width == 0;
      assert hi == lo + 1;
      Log2Of(lo + 1, k);
    }
    tip := Some(lo);
  }

  lemma Pow2Below(k: nat)
    requires k < 63
    ensures 2 * Pow2(k) <= U64_MAX
  {
    Pow2Monotone(k + 1, 63);
    Pow2At64();
  }

  lemma GallopEnds(k: nat)
    requires k <= 64
    requires Pow2(k) - 1 + (if k == 64 then U64_MAX else Pow2(k)) > U64_MAX
    ensures k == 64 && Pow2(k) - 1 == U64_MAX
  {
    Pow2At64();
    if k < 64 {
      Pow2Monotone(k + 1, 64);
    }
  }

  /** While other enclaves keep publishing, the answer is a tip the chain really had at some moment
      of the search: no smaller than the tip at the first probe, no larger than at the last. */
  lemma TipDuringGrowth(answer: Store, tip: nat, probes: nat, first: nat, last: nat)
    requires Grows(answer)
    requires DownwardClosed(answer, 0) && DownwardClosed(answer, probes)
    requires Answered(answer, probes, tip, true)
    requires tip < U64_MAX ==> Answered(answer, probes, tip + 1, false)
    requires answer(0, first) && !answer(0, first + 1) && first <= U64_MAX
    requires answer(probes, last) && !answer(probes, last + 1)
    ensures first <= tip <= last
  {
    assert answer(probes, tip);
    assert tip <= last;
    assert tip < U64_MAX ==> !answer(0, tip + 1);
  }

  /** On a chain that stands still and has no gaps, the answer is its maximum. */
  lemma TipOfStandingChain(answer: Store, tip: nat, probes: nat)
    requires forall t: nat, u: nat, n: nat :: answer(t, n) == answer(u, n)
    requires DownwardClosed(answer, 0)
    requires Answered(answer, probes, tip, true)
    requires tip < U64_MAX ==> Answered(answer, probes, tip + 1, false)
    ensures answer(0, tip)
    ensures forall n: nat :: n <= U64_MAX && answer(0, n) ==> n <= tip
  {
    assert answer(0, tip);
    assert tip < U64_MAX ==> !answer(0, tip + 1);
  }
}
