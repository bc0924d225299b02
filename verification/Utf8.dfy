/** UTF-8 as section 4 of RFC 3629 lays it out: the shortest form only, and no surrogates. */
module Utf8 {
  import opened Wrappers

  datatype Decoded = Decoded(c: char, size: nat)

  predicate Tail(b: bytes, i: nat) {
    i < |b| && 0x80 <= b[i] < 0xc0
  }

  /** The six bits a following octet carries. */
  function Bits(b: bytes, i: nat): (r: int)
    requires Tail(b, i)
    ensures 0 <= r < 0x40
  {
    b[i] - 0x80
  }

  /** The character at the front, and how many octets it takes. */
  function First(b: bytes): (r: Option<Decoded>)
    ensures r.Some? ==> 0 < r.value.size <= |b| && r.value.size == Width(r.value.c)
  {
    if b == [] then None
    else
      var lead: int := b[0];
      if lead < 0x80 then Some(Decoded(lead as char, 1))
      else if 0xc2 <= lead < 0xe0 && Tail(b, 1) then
        Some(Decoded(((lead - 0xc0) * 0x40 + Bits(b, 1)) as char, 2))
      else if 0xe0 <= lead < 0xf0 && Tail(b, 1) && Tail(b, 2) then
        var code := (lead - 0xe0) * 0x1000 + Bits(b, 1) * 0x40 + Bits(b, 2);
        if code < 0x800 || 0xd800 <= code < 0xe000 then None else Some(Decoded(code as char, 3))
      else if 0xf0 <= lead < 0xf5 && Tail(b, 1) && Tail(b, 2) && Tail(b, 3) then
        var code := (lead - 0xf0) * 0x40000 + Bits(b, 1) * 0x1000 + Bits(b, 2) * 0x40 + Bits(b, 3);
        if code < 0x10000 || 0x110000 <= code then None else Some(Decoded(code as char, 4))
      else None
  }

  /** The text these octets are, if they are one. */
  function Text(b: bytes): Option<string>
    decreases |b|
  {
    if b == [] then Some("")
    else
      var first := First(b);
      if first.None? then None
      else
        var rest := Text(b[first.value.size..]);
        if rest.None? then None else Some([first.value.c] + rest.value)
  }

  /** Octets a character takes. */
  function Width(c: char): nat {
    var code := c as int;
    if code < 0x80 then 1 else if code < 0x800 then 2 else if code < 0x10000 then 3 else 4
  }

  function Size(s: string): nat {
    if s == "" then 0 else Width(s[0]) + Size(s[1..])
  }

  lemma FirstKept(a: bytes, b: bytes)
    requires First(a).Some?
    ensures First(a + b) == First(a)
  {
  }

  lemma TextStep(b: bytes)
    ensures b == [] ==> Text(b) == Some("")
    ensures b != [] ==>
              Text(b) == if First(b).None? || Text(b[First(b).value.size..]).None? then None
                         else Some([First(b).value.c] + Text(b[First(b).value.size..]).value)
  {
    hide First;
  }

  /** Two texts end to end are one text. */
  lemma {:induction false} TextJoins(a: bytes, b: bytes)
    requires Text(a).Some? && Text(b).Some?
    ensures Text(a + b) == Some(Text(a).value + Text(b).value)
    decreases |a|
  {
    hide Text, First;
    TextStep(a);
    if a == [] {
      assert a + b == b;
      assert "" + Text(b).value == Text(b).value;
    } else {
      var n := First(a).value.size;
      FirstKept(a, b);
      TextStep(a + b);
      TextJoins(a[n..], b);
      assert (a + b)[n..] == a[n..] + b;
      var c, x, y := First(a).value.c, Text(a[n..]).value, Text(b).value;
      assert [c] + (x + y) == [c] + x + y;
    }
  }

  /** A text is as long, in octets, as the octets it was read from. */
  lemma {:induction false} TextSize(b: bytes)
    requires Text(b).Some?
    ensures Size(Text(b).value) == |b|
    decreases |b|
  {
    if b != [] {
      TextSize(b[First(b).value.size..]);
    }
  }

  lemma {:induction false} SizeJoins(s: string, t: string)
    ensures Size(s + t) == Size(s) + Size(t)
  {
    if s == "" {
      assert s + t == t;
    } else {
      SizeJoins(s[1..], t);
      assert (s + t)[1..] == s[1..] + t;
    }
  }

  // ---- encoding -----------------------------------------------------------

  function EncodeChar(c: char): bytes {
    var code := c as int;
    if code < 0x80 then [code]
    else if code < 0x800 then [0xc0 + code / 0x40, 0x80 + code % 0x40]
    else if code < 0x10000 then [0xe0 + code / 0x1000, 0x80 + code / 0x40 % 0x40, 0x80 + code % 0x40]
    else [0xf0 + code / 0x40000, 0x80 + code / 0x1000 % 0x40, 0x80 + code / 0x40 % 0x40, 0x80 + code % 0x40]
  }

  function Encode(s: string): bytes {
    if s == "" then [] else EncodeChar(s[0]) + Encode(s[1..])
  }

  lemma FirstOfEncoded(c: char)
    ensures First(EncodeChar(c)) == Some(Decoded(c, |EncodeChar(c)|))
  {
    var code := c as int;
    assert code / 0x1000 == code / 0x40 / 0x40 && code / 0x40000 == code / 0x1000 / 0x40;
  }

  /** What was encoded reads back as it was. */
  lemma {:induction false} EncodedReads(s: string)
    ensures Text(Encode(s)) == Some(s)
  {
    if s != "" {
      var first, rest := EncodeChar(s[0]), Encode(s[1..]);
      FirstOfEncoded(s[0]);
      FirstKept(first, rest);
      assert (first + rest)[|first|..] == rest;
      EncodedReads(s[1..]);
      assert [s[0]] + s[1..] == s;
    }
  }

  lemma SixBits(high: nat, low: nat)
    requires low < 0x40
    ensures (high * 0x40 + low) / 0x40 == high && (high * 0x40 + low) % 0x40 == low
  {
  }

  lemma FirstIsEncoded(b: bytes)
    requires First(b).Some?
    ensures EncodeChar(First(b).value.c) == b[..First(b).value.size]
  {
    var size := First(b).value.size;
    if size == 1 {
      assert b[..1] == [b[0]];
    } else if size == 2 {
      SixBits(b[0] - 0xc0, Bits(b, 1));
      assert b[..2] == [b[0], b[1]];
    } else if size == 3 {
      var high := (b[0] - 0xe0) * 0x40 + Bits(b, 1);
      SixBits(b[0] - 0xe0, Bits(b, 1));
      SixBits(high, Bits(b, 2));
      assert First(b).value.c as int / 0x1000 == high / 0x40;
      assert b[..3] == [b[0], b[1], b[2]];
    } else {
      FourIsEncoded(b);
    }
  }

  lemma FourIsEncoded(b: bytes)
    requires First(b).Some? && First(b).value.size == 4
    ensures EncodeChar(First(b).value.c) == b[..4]
  {
    var top := (b[0] - 0xf0) * 0x40 + Bits(b, 1);
    var high := top * 0x40 + Bits(b, 2);
    SixBits(b[0] - 0xf0, Bits(b, 1));
    SixBits(top, Bits(b, 2));
    SixBits(high, Bits(b, 3));
    var code := First(b).value.c as int;
    assert code == high * 0x40 + Bits(b, 3);
    assert code / 0x1000 == high / 0x40 && code / 0x40000 == top / 0x40;
    assert b[..4] == [b[0], b[1], b[2], b[3]];
  }

  lemma {:induction false} ReadEncodes(b: bytes)
    requires Text(b).Some?
    ensures Encode(Text(b).value) == b
    decreases |b|
  {
    hide First, EncodeChar;
    if b != [] {
      var n := First(b).value.size;
      FirstIsEncoded(b);
      ReadEncodes(b[n..]);
      assert b == b[..n] + b[n..];
      assert Text(b).value[1..] == Text(b[n..]).value;
    }
  }

  /** Octets are a text exactly if they are its encoding: each text has one, and no others are read. */
  lemma TextExactly(b: bytes, s: string)
    ensures Text(b) == Some(s) <==> b == Encode(s)
  {
    EncodedReads(s);
    if Text(b).Some? {
      ReadEncodes(b);
    }
  }
}
