/** Text as it is taken apart: white space, lines, numerals and separators. */
module Texts {
  import opened Wrappers
  import opened Numbers

  /** The Unicode white space `trim` takes off. */
  predicate White(c: char) {
    var code := c as int;
    || 9 <= code <= 13 || code == 0x20 || code == 0x85 || code == 0xa0 || code == 0x1680
    || 0x2000 <= code <= 0x200a || code == 0x2028 || code == 0x2029 || code == 0x202f || code == 0x205f || code == 0x3000
  }

  function Trim(s: string): string
    decreases |s|
  {
    if s == "" then ""
    else if White(s[0]) then Trim(s[1..])
    else if White(s[|s| - 1]) then Trim(s[..|s| - 1])
    else s
  }

  /** Lines, the last one whether or not it is terminated. */
  function Lines(s: string): seq<string>
    decreases |s|
  {
    if s == "" then []
    else
      var n := LineLength(s);
      [s[..n]] + if n == |s| then [] else Lines(s[n + 1..])
  }

  function LineLength(s: string): (n: nat)
    ensures n <= |s|
    ensures n < |s| ==> s[n] == '\n'
  {
    if s == "" || s[0] == '\n' then 0 else 1 + LineLength(s[1..])
  }

  // ---- numerals -----------------------------------------------------------

  function Digit(d: nat): char
    requires d < 10
  {
    ('0' as int + d) as char
  }

  function DigitValue(c: char): Option<nat> {
    if '0' <= c <= '9' then Some(c as int - '0' as int) else None
  }

  /** A number in decimal, without leading zeros. */
  function Decimal(n: nat): (s: string)
    ensures s != ""
  {
    if n < 10 then [Digit(n)] else Decimal(n / 10) + [Digit(n % 10)]
  }

  function DecimalValue(s: string): Option<nat> {
    if s == "" then Some(0)
    else
      var front, last := DecimalValue(s[..|s| - 1]), DigitValue(s[|s| - 1]);
      if front.None? || last.None? then None else Some(10 * front.value + last.value)
  }

  lemma {:induction false} DecimalReads(n: nat)
    ensures DecimalValue(Decimal(n)) == Some(n)
    decreases n
  {
    if n >= 10 {
      DecimalReads(n / 10);
      assert Decimal(n)[..|Decimal(n)| - 1] == Decimal(n / 10);
    } else {
      assert Decimal(n)[..0] == "";
    }
  }

  lemma {:induction false} DecimalHasNoDash(n: nat)
    ensures '-' !in Decimal(n)
    decreases n
  {
    if n >= 10 {
      DecimalHasNoDash(n / 10);
    }
  }

  /** An unsigned number as Rust parses one: digits after an optional plus sign, within 64 bits. */
  function ParseU64(s: string): Option<nat> {
    var digits := if s != "" && s[0] == '+' then s[1..] else s;
    if digits == "" then None
    else
      var value := DecimalValue(digits);
      if value.None? || value.value >= U64 then None else value
  }

  function HexDigit(d: nat): char
    requires d < 16
  {
    if d < 10 then ('0' as int + d) as char else ('a' as int + (d - 10)) as char
  }

  /** Octets in lower-case hexadecimal. */
  function Hex(b: bytes): string {
    if b == [] then "" else [HexDigit(b[0] / 16), HexDigit(b[0] % 16)] + Hex(b[1..])
  }

  lemma {:induction false} HexInjective(a: bytes, b: bytes)
    requires Hex(a) == Hex(b)
    ensures a == b
  {
    if a != [] && b != [] {
      assert Hex(a)[0] == Hex(b)[0] && Hex(a)[1] == Hex(b)[1];
      assert a[0] / 16 == b[0] / 16 && a[0] % 16 == b[0] % 16;
      assert Hex(a)[2..] == Hex(a[1..]) && Hex(b)[2..] == Hex(b[1..]);
      HexInjective(a[1..], b[1..]);
      assert a == [a[0]] + a[1..] && b == [b[0]] + b[1..];
    }
  }

  lemma {:induction false} HexHasNoDash(b: bytes)
    ensures '-' !in Hex(b) && |Hex(b)| == 2 * |b| && forall i :: 0 <= i < |Hex(b)| ==> Hex(b)[i] as int < 0x80
  {
    if b != [] {
      HexHasNoDash(b[1..]);
    }
  }

  // ---- separators ---------------------------------------------------------

  function IndexOf(s: string, c: char): (r: Option<nat>)
    ensures r.Some? ==> r.value < |s| && s[r.value] == c && forall j :: 0 <= j < r.value ==> s[j] != c
    ensures r.None? ==> c !in s
  {
    if s == "" then None
    else if s[0] == c then Some(0)
    else
      var r := IndexOf(s[1..], c);
      if r.None? then None else Some(r.value + 1)
  }

  /** What follows the first occurrence of a tag. */
  function After(s: string, tag: string): Option<string> {
    if tag <= s then Some(s[|tag|..]) else if s == "" then None else After(s[1..], tag)
  }

  /** The pieces between separators, always at least one. */
  function SplitAt(s: string, c: char): (pieces: seq<string>)
    ensures pieces != []
    decreases |s|
  {
    var at := IndexOf(s, c);
    if at.None? then [s] else [s[..at.value]] + SplitAt(s[at.value + 1..], c)
  }

  lemma SplitFirst(piece: string, rest: string, c: char)
    requires c !in piece
    ensures SplitAt(piece, c) == [piece]
    ensures SplitAt(piece + [c] + rest, c) == [piece] + SplitAt(rest, c)
  {
    var s := piece + [c] + rest;
    assert s[|piece|] == c;
    assert forall j :: 0 <= j < |piece| ==> s[j] == piece[j];
    assert IndexOf(s, c) == Some(|piece|);
    assert s[..|piece|] == piece && s[|piece| + 1..] == rest;
  }

  function Join(pieces: seq<string>, c: char): string
    requires pieces != []
  {
    if |pieces| == 1 then pieces[0] else pieces[0] + [c] + Join(pieces[1..], c)
  }

  lemma {:induction false} SplitJoins(s: string, c: char)
    ensures Join(SplitAt(s, c), c) == s
    ensures forall i :: 0 <= i < |SplitAt(s, c)| ==> c !in SplitAt(s, c)[i]
    decreases |s|
  {
    var at := IndexOf(s, c);
    if at.Some? {
      SplitJoins(s[at.value + 1..], c);
      assert s == s[..at.value] + [c] + s[at.value + 1..];
    }
  }
}
