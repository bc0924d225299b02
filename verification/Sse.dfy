/** Server-sent events, put together again from however the octets arrive. */
module Sse {
  import opened Wrappers
  import opened Utf8

  const MAX_MESSAGE: nat := 256 * 1024

  // ---- line endings -------------------------------------------------------

  /** CRLF becomes LF. */
  function JoinCrLf(s: string): (r: string)
    ensures |r| <= |s|
  {
    if s == "" then ""
    else if |s| >= 2 && s[0] == '\r' && s[1] == '\n' then "\n" + JoinCrLf(s[2..])
    else [s[0]] + JoinCrLf(s[1..])
  }

  /** CR becomes LF. */
  function CrToLf(s: string): (r: string)
    ensures |r| == |s|
    ensures forall i :: 0 <= i < |s| ==> r[i] == if s[i] == '\r' then '\n' else s[i]
  {
    if s == "" then "" else [if s[0] == '\r' then '\n' else s[0]] + CrToLf(s[1..])
  }

  predicate HasCr(s: string) {
    '\r' in s
  }

  predicate EndsWithCr(s: string) {
    s != "" && s[|s| - 1] == '\r'
  }

  /** The buffer rewritten as each push does it: folded, a last CR put back. */
  function Rewritten(s: string): string {
    if HasCr(s) then
      var folded := CrToLf(JoinCrLf(s));
      if EndsWithCr(s) then
        if folded == "" then "\r" else folded[..|folded| - 1] + "\r"
      else folded
    else s
  }

  /** A text with every line ending as LF: each of CRLF, CR and LF ends one line. */
  ghost function Fold(s: string): string {
    if s == "" then ""
    else if s[0] == '\r' then "\n" + Fold(if |s| >= 2 && s[1] == '\n' then s[2..] else s[1..])
    else [s[0]] + Fold(s[1..])
  }

  /** A text folded as far as it can be told: a last CR may be half of a CRLF. */
  ghost function Held(s: string): string {
    if EndsWithCr(s) then Fold(s[..|s| - 1]) + "\r" else Fold(s)
  }

  lemma {:induction false} FoldIsTwoPasses(s: string)
    ensures Fold(s) == CrToLf(JoinCrLf(s))
    decreases |s|
  {
    if s != "" {
      if s[0] == '\r' && |s| >= 2 && s[1] == '\n' {
        FoldIsTwoPasses(s[2..]);
        assert CrToLf("\n" + JoinCrLf(s[2..])) == "\n" + CrToLf(JoinCrLf(s[2..]));
      } else {
        FoldIsTwoPasses(s[1..]);
        var c := s[0];
        assert CrToLf([c] + JoinCrLf(s[1..])) == [if c == '\r' then '\n' else c] + CrToLf(JoinCrLf(s[1..]));
      }
    }
  }

  lemma {:induction false} FoldWithoutCr(s: string)
    requires !HasCr(s)
    ensures Fold(s) == s
  {
    if s != "" {
      FoldWithoutCr(s[1..]);
    }
  }

  lemma {:induction false} FoldLeavesNoCr(s: string)
    ensures !HasCr(Fold(s))
    decreases |s|
  {
    if s != "" {
      FoldLeavesNoCr(if s[0] == '\r' && |s| >= 2 && s[1] == '\n' then s[2..] else s[1..]);
    }
  }

  /** Octets of the first line ending or character. */
  function Taken(s: string): nat
    requires s != ""
  {
    if s[0] == '\r' && |s| >= 2 && s[1] == '\n' then 2 else 1
  }

  lemma FoldStep(s: string)
    requires s != ""
    ensures Fold(s) == [if s[0] == '\r' then '\n' else s[0]] + Fold(s[Taken(s)..])
  {
  }

  lemma Behind(c: char, s: string, t: string)
    ensures [c] + s + t == [c] + (s + t)
  {
  }

  lemma TakenKept(s: string, t: string)
    requires s != "" && !(EndsWithCr(s) && t != "" && t[0] == '\n')
    ensures var k := Taken(s); Taken(s + t) == k && k <= |s| && (s + t)[k..] == s[k..] + t
    ensures EndsWithCr(s[Taken(s)..]) ==> EndsWithCr(s)
  {
  }

  /** Folding passes over a cut, unless the cut splits a CRLF. */
  lemma {:induction false} FoldJoins(s: string, t: string)
    requires !(EndsWithCr(s) && t != "" && t[0] == '\n')
    ensures Fold(s + t) == Fold(s) + Fold(t)
    decreases |s|
  {
    if s == "" {
      assert s + t == t;
    } else {
      FoldStep(s);
      FoldStep(s + t);
      hide Fold;
      var k := Taken(s);
      TakenKept(s, t);
      hide Taken;
      FoldJoins(s[k..], t);
      hide EndsWithCr;
      Behind(if s[0] == '\r' then '\n' else s[0], Fold(s[k..]), Fold(t));
    }
  }

  lemma RewrittenIsHeld(s: string)
    ensures Rewritten(s) == Held(s)
  {
    FoldIsTwoPasses(s);
    if EndsWithCr(s) {
      var most := s[..|s| - 1];
      assert most + "\r" == s;
      FoldJoins(most, "\r");
      assert Fold("\r") == "\n" + Fold("\r"[1..]) == "\n";
    } else if !HasCr(s) {
      FoldWithoutCr(s);
    }
  }

  lemma HeldKeepsEnd(s: string)
    ensures EndsWithCr(Held(s)) == EndsWithCr(s)
    ensures EndsWithCr(s) ==> Held(s)[..|Held(s)| - 1] == Fold(s[..|s| - 1])
    ensures forall i :: 0 <= i < |Held(s)| - 1 ==> Held(s)[i] != '\r'
  {
    FoldLeavesNoCr(s);
    if EndsWithCr(s) {
      FoldLeavesNoCr(s[..|s| - 1]);
    }
  }

  lemma {:induction false} FoldTwice(s: string)
    ensures Fold(Fold(s)) == Fold(s)
  {
    FoldLeavesNoCr(s);
    FoldWithoutCr(Fold(s));
  }

  /** Folding what was held with what comes next is folding it all. */
  lemma FoldResumes(s: string, t: string)
    ensures Fold(Held(s) + t) == Fold(s + t)
  {
    if EndsWithCr(s) {
      var most := s[..|s| - 1];
      assert s + t == most + ("\r" + t);
      assert Held(s) + t == Fold(most) + ("\r" + t);
      FoldLeavesNoCr(most);
      FoldJoins(most, "\r" + t);
      FoldJoins(Fold(most), "\r" + t);
      FoldTwice(most);
    } else {
      FoldLeavesNoCr(s);
      FoldJoins(s, t);
      FoldJoins(Fold(s), t);
      FoldTwice(s);
    }
  }

  lemma HeldResumesWithCr(s: string, t: string)
    requires EndsWithCr(t)
    ensures Held(Held(s) + t) == Held(s + t)
  {
    hide Fold;
    var most := t[..|t| - 1];
    assert (s + t)[..|s + t| - 1] == s + most;
    assert (Held(s) + t)[..|Held(s) + t| - 1] == Held(s) + most;
    FoldResumes(s, most);
  }

  /** A buffer that was folded, and then grew, folds to what the whole text does. */
  lemma HeldResumes(s: string, t: string)
    ensures Held(Held(s) + t) == Held(s + t)
  {
    hide Fold;
    if t == "" {
      assert s + t == s && Held(s) + t == Held(s);
      HeldTwice(s);
    } else if EndsWithCr(t) {
      HeldResumesWithCr(s, t);
    } else {
      assert !EndsWithCr(s + t) && !EndsWithCr(Held(s) + t);
      FoldResumes(s, t);
    }
  }

  lemma HeldTwice(s: string)
    ensures Held(Held(s)) == Held(s)
  {
    HeldKeepsEnd(s);
    if EndsWithCr(s) {
      FoldTwice(s[..|s| - 1]);
    } else {
      FoldTwice(s);
    }
  }

  /** What has no CR in it stays in front. */
  lemma HeldBehind(s: string, t: string)
    requires !HasCr(s)
    ensures Held(s + t) == s + Held(t)
  {
    if t == "" {
      assert s + t == s;
      FoldWithoutCr(s);
    } else if EndsWithCr(t) {
      assert (s + t)[..|s + t| - 1] == s + t[..|t| - 1];
      FoldJoins(s, t[..|t| - 1]);
      FoldWithoutCr(s);
    } else {
      FoldJoins(s, t);
      FoldWithoutCr(s);
    }
  }

  // ---- blocks -------------------------------------------------------------

  predicate BlankAt(s: string, i: int) {
    0 <= i < |s| - 1 && s[i] == '\n' && s[i + 1] == '\n'
  }

  /** Where the first blank line starts. */
  function Find(s: string): (r: Option<nat>)
    ensures r.Some? ==> BlankAt(s, r.value) && forall j :: BlankAt(s, j) ==> r.value <= j
    ensures r.None? ==> forall j :: !BlankAt(s, j)
  {
    if BlankAt(s, 0) then Some(0)
    else if s == "" then None
    else
      var r := Find(s[1..]);
      assert forall j :: BlankAt(s, j) && j > 0 ==> BlankAt(s[1..], j - 1);
      if r.None? then None else Some(r.value + 1)
  }

  /** A block: it ends with a blank line, and holds no other. */
  ghost predicate IsBlock(s: string) {
    |s| >= 2 && BlankAt(s, |s| - 2) && forall j :: BlankAt(s, j) ==> j == |s| - 2
  }

  datatype Split = Split(blocks: seq<string>, rest: string)

  function Cut(s: string): Split
    decreases |s|
  {
    var end := Find(s);
    if end.None? then Split([], s)
    else
      var more := Cut(s[end.value + 2..]);
      Split([s[..end.value + 2]] + more.blocks, more.rest)
  }

  function Concat(parts: seq<string>): string {
    if parts == [] then "" else parts[0] + Concat(parts[1..])
  }

  ghost predicate IsCut(s: string, cut: Split) {
    && s == Concat(cut.blocks) + cut.rest
    && (forall i :: 0 <= i < |cut.blocks| ==> IsBlock(cut.blocks[i]))
    && forall j :: !BlankAt(cut.rest, j)
  }

  lemma {:induction false} CutIsCut(s: string)
    ensures IsCut(s, Cut(s))
    decreases |s|
  {
    var end := Find(s);
    if end.Some? {
      var block, rest := s[..end.value + 2], s[end.value + 2..];
      CutIsCut(rest);
      assert IsBlock(block) by {
        assert BlankAt(block, end.value);
        forall j | BlankAt(block, j) ensures j == |block| - 2 {
          assert BlankAt(s, j);
        }
      }
      assert s == block + rest;
      assert Cut(s).blocks[1..] == Cut(rest).blocks;
    } else {
      assert Concat([]) + s == s;
    }
  }

  /** A block is found first, whatever follows it. */
  lemma BlockFirst(block: string, rest: string)
    requires IsBlock(block)
    ensures Find(block + rest) == Some(|block| - 2)
  {
    var s := block + rest;
    assert BlankAt(s, |block| - 2);
    var at := Find(s).value;
    assert BlankAt(block, at);
  }

  lemma CutStep(block: string, rest: string)
    requires IsBlock(block)
    ensures Cut(block + rest) == Split([block] + Cut(rest).blocks, Cut(rest).rest)
  {
    BlockFirst(block, rest);
    var s := block + rest;
    assert s[..|block|] == block && s[|block|..] == rest;
  }

  lemma Regrouped<T>(s: seq<T>, t: seq<T>)
    requires s != []
    ensures s + t == [s[0]] + (s[1..] + t)
  {
  }

  /** There is one way to cut a text, and cutting resumes behind whole blocks. */
  lemma {:induction false} CutBehind(blocks: seq<string>, rest: string)
    requires forall i :: 0 <= i < |blocks| ==> IsBlock(blocks[i])
    ensures Cut(Concat(blocks) + rest) == Split(blocks + Cut(rest).blocks, Cut(rest).rest)
  {
    hide Cut, IsBlock, Find, BlankAt;
    if blocks == [] {
      assert Concat(blocks) + rest == rest;
      assert blocks + Cut(rest).blocks == Cut(rest).blocks;
    } else {
      var block, more := blocks[0], Concat(blocks[1..]);
      CutStep(block, more + rest);
      CutBehind(blocks[1..], rest);
      Regrouped(blocks, Cut(rest).blocks);
      assert block + more + rest == block + (more + rest);
    }
  }

  lemma CutUnique(s: string, cut: Split)
    requires IsCut(s, cut)
    ensures Cut(s) == cut
  {
    CutBehind(cut.blocks, cut.rest);
    assert cut.blocks + [] == cut.blocks;
  }
}
