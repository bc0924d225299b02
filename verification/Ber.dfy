/** The transcoder from BER to DER: every value with a definite length, chunked octet strings whole. */
module Ber {
  import opened Wrappers
  import opened Numbers

  const MAX_DEPTH: nat := 64
  const FOUR_BYTES: nat := 0x1_0000_0000

  predicate LowTag(id: byte) {
    id % 32 != 31
  }

  /** Bit 6 of an identifier octet. */
  predicate ConstructedBit(id: byte) {
    (id / 32) % 2 == 1
  }

  predicate ContextClass(id: byte) {
    id / 64 == 2
  }

  // ---- lengths ------------------------------------------------------------

  /** The least big-endian digits of a length, at least one. */
  function Digits(n: nat): (d: bytes)
    ensures d != []
  {
    if n < 256 then [n] else Digits(n / 256) + [n % 256]
  }

  datatype Length = Length(value: Option<nat>, rest: bytes)

  /** A length, `None` within for the indefinite form, and the input after it. */
  function ReadLen(input: bytes): (r: Option<Length>)
    ensures r.Some? ==> |r.value.rest| < |input| && r.value.rest == input[|input| - |r.value.rest|..]
  {
    if input == [] then None
    else if input[0] == 0x80 then Some(Length(None, input[1..]))
    else if input[0] < 0x80 then Some(Length(Some(input[0]), input[1..]))
    else
      var n := input[0] - 0x80;
      if n > 4 || n > |input| - 1 then None
      else Some(Length(Some(BigEndian(input[1..n + 1])), input[n + 1..]))
  }

  /** The length octets `emit` writes: short below 128, otherwise as few as hold it. */
  function MinimalLength(n: nat): bytes {
    if n < 0x80 then [n]
    else
      var d := Digits(n);
      [0x80 + if |d| < 0x7f then |d| else 0x7f] + d
  }

  function Emit(id: byte, content: bytes): bytes {
    [id] + MinimalLength(|content|) + content
  }

  // ---- what is read, and what is written ----------------------------------

  /** A value as it was encoded, its length octets as they stood. */
  datatype Value =
    | Primitive(id: byte, length: bytes, content: bytes)
    | Definite(id: byte, length: bytes, children: seq<Value>)
    | Indefinite(id: byte, children: seq<Value>)

  function Bytes(v: Value): bytes
    decreases v, 1
  {
    match v
    case Primitive(id, length, content) => [id] + length + content
    case Definite(id, length, children) => [id] + length + BytesOfAll(children)
    case Indefinite(id, children) => [id, 0x80] + BytesOfAll(children) + [0, 0]
  }

  function BytesOfAll(vs: seq<Value>): bytes
    decreases vs, 0
  {
    if vs == [] then [] else Bytes(vs[0]) + BytesOfAll(vs[1..])
  }

  predicate EndOfContents(b: bytes) {
    |b| >= 2 && b[0] == 0 && b[1] == 0
  }

  predicate IsLength(length: bytes, n: nat) {
    ReadLen(length) == Some(Length(Some(n), []))
  }

  /** The encodings the transcoder reads: low tags, lengths of at most four octets, an indefinite length
      on constructed values alone, and nothing inside one that reads as its end. */
  predicate Valid(v: Value)
    decreases v, 1
  {
    match v
    case Primitive(id, length, content) => LowTag(id) && !ConstructedBit(id) && IsLength(length, |content|)
    case Definite(id, length, children) =>
      LowTag(id) && ConstructedBit(id) && AllValid(children) && IsLength(length, |BytesOfAll(children)|)
    case Indefinite(id, children) =>
      LowTag(id) && ConstructedBit(id) && AllValid(children) && NoneEnds(children)
  }

  predicate AllValid(vs: seq<Value>)
    decreases vs, 0
  {
    vs != [] ==> Valid(vs[0]) && AllValid(vs[1..])
  }

  predicate NoneEnds(vs: seq<Value>)
    decreases vs, 0
  {
    vs != [] ==> !EndOfContents(Bytes(vs[0])) && NoneEnds(vs[1..])
  }

  /** Levels of nesting below this value. */
  function Height(v: Value): nat
    decreases v, 1
  {
    if v.Primitive? then 0 else HeightOfAll(v.children)
  }

  /** One more than the height of the highest, or zero for none. */
  function HeightOfAll(vs: seq<Value>): nat
    decreases vs, 0
  {
    if vs == [] then 0
    else
      var h, rest := Height(vs[0]) + 1, HeightOfAll(vs[1..]);
      if h > rest then h else rest
  }

  /** A value as DER writes it. */
  datatype Tlv = Leaf(id: byte, content: bytes) | Node(id: byte, children: seq<Tlv>)

  function Encode(t: Tlv): bytes
    decreases t, 1
  {
    match t
    case Leaf(id, content) => Emit(id, content)
    case Node(id, children) => Emit(id, EncodeAll(children))
  }

  function EncodeAll(ts: seq<Tlv>): bytes
    decreases ts, 0
  {
    if ts == [] then [] else Encode(ts[0]) + EncodeAll(ts[1..])
  }

  // ---- collapsing chunks --------------------------------------------------

  predicate OctetString(t: Tlv) {
    t.id == 0x04
  }

  predicate AllOctets(ts: seq<Tlv>) {
    forall i :: 0 <= i < |ts| ==> OctetString(ts[i])
  }

  /** A chunk whose content can be taken: an octet string with a length that reads back. */
  predicate Chunk(t: Tlv) {
    t.Leaf? && OctetString(t) && |t.content| < FOUR_BYTES
  }

  function Joined(ts: seq<Tlv>): bytes
    requires forall i :: 0 <= i < |ts| ==> ts[i].Leaf?
  {
    if ts == [] then [] else ts[0].content + Joined(ts[1..])
  }

  /** A chunked octet string becomes one primitive: the universal constructed form, and a context tag
      over nothing but octet strings. Any other constructed value keeps its children. */
  function Assemble(id: byte, ts: seq<Tlv>): Option<Tlv> {
    if id == 0x24 || (ContextClass(id) && ts != [] && AllOctets(ts)) then
      if forall i :: 0 <= i < |ts| ==> Chunk(ts[i]) then
        Some(Leaf(if id == 0x24 then 0x04 else if id >= 32 then id - 32 else id, Joined(ts)))
      else None
    else Some(Node(id, ts))
  }

  function Collapse(v: Value): Option<Tlv>
    decreases v, 1
  {
    if v.Primitive? then Some(Leaf(v.id, v.content))
    else
      var ts := CollapseAll(v.children);
      if ts.None? then None else Assemble(v.id, ts.value)
  }

  function CollapseAll(vs: seq<Value>): (r: Option<seq<Tlv>>)
    ensures r.Some? ==> |r.value| == |vs|
    decreases vs, 0
  {
    if vs == [] then Some([])
    else
      var first, rest := Collapse(vs[0]), CollapseAll(vs[1..]);
      if first.None? || rest.None? then None else Some([first.value] + rest.value)
  }

  // ---- reading ------------------------------------------------------------

  datatype Read<T> = Read(value: T, rest: bytes)

  function Parse(input: bytes, depth: nat): (r: Option<Read<Value>>)
    ensures r.Some? ==> |r.value.rest| < |input|
    decreases |input|, 1
  {
    if depth > MAX_DEPTH || input == [] || !LowTag(input[0]) then None
    else
      var id := input[0];
      var len := ReadLen(input[1..]);
      if len.None? then None
      else
        var after := len.value.rest;
        var length := input[1..|input| - |after|];
        if len.value.value.None? then
          if !ConstructedBit(id) then None
          else
            var children := ParseUntilEnd(after, depth + 1);
            if children.None? then None else Some(Read(Indefinite(id, children.value.value), children.value.rest))
        else
          var n := len.value.value.value;
          if n > |after| then None
          else if !ConstructedBit(id) then Some(Read(Primitive(id, length, after[..n]), after[n..]))
          else
            var children := ParseAll(after[..n], depth + 1);
            if children.None? then None else Some(Read(Definite(id, length, children.value), after[n..]))
  }

  function ParseAll(region: bytes, depth: nat): Option<seq<Value>>
    decreases |region|, 2
  {
    if region == [] then Some([])
    else
      var first := Parse(region, depth);
      if first.None? then None
      else
        var rest := ParseAll(first.value.rest, depth);
        if rest.None? then None else Some([first.value.value] + rest.value)
  }

  function ParseUntilEnd(region: bytes, depth: nat): (r: Option<Read<seq<Value>>>)
    ensures r.Some? ==> |r.value.rest| < |region|
    decreases |region|, 2
  {
    if EndOfContents(region) then Some(Read([], region[2..]))
    else
      var first := Parse(region, depth);
      if first.None? then None
      else
        var rest := ParseUntilEnd(first.value.rest, depth);
        if rest.None? then None else Some(Read([first.value.value] + rest.value.value, rest.value.rest))
  }

  function ToDer(input: bytes): Option<bytes> {
    var v := Parse(input, 0);
    if v.None? || v.value.rest != [] then None
    else
      var t := Collapse(v.value.value);
      if t.None? then None else Some(Encode(t.value))
  }

  // ---- lengths read back --------------------------------------------------

  lemma {:induction false} BigEndianDigits(n: nat)
    ensures BigEndian(Digits(n)) == n
    decreases n
  {
    if n >= 256 {
      BigEndianDigits(n / 256);
      assert Digits(n)[..|Digits(n)| - 1] == Digits(n / 256);
    } else {
      assert Digits(n)[..0] == [];
    }
  }

  lemma {:induction false} DigitsWithin(n: nat, k: nat)
    requires k >= 1
    ensures |Digits(n)| <= k <==> n < Power256(k)
    decreases k
  {
    if n >= 256 && k > 1 {
      DigitsWithin(n / 256, k - 1);
      assert n / 256 < Power256(k - 1) <==> n < 256 * Power256(k - 1);
    } else if n < 256 {
      PowerAtLeast(k);
    }
  }

  lemma FourDigits(n: nat)
    ensures |Digits(n)| <= 4 <==> n < FOUR_BYTES
  {
    DigitsWithin(n, 4);
    assert Power256(1) == 256 && Power256(2) == 0x10000 && Power256(3) == 0x1000000;
  }

  /** A length that reads back on its own reads back in front of anything. */
  lemma LengthThen(length: bytes, n: nat, rest: bytes)
    requires IsLength(length, n)
    ensures ReadLen(length + rest) == Some(Length(Some(n), rest))
  {
    assert (length + rest)[|length|..] == rest;
    if length[0] > 0x80 {
      var k := length[0] - 0x80;
      assert |length| == k + 1;
      assert (length + rest)[1..k + 1] == length[1..k + 1];
    }
  }

  /** The octets a length was read from are a length on their own. */
  lemma LengthOf(input: bytes)
    requires ReadLen(input).Some? && ReadLen(input).value.value.Some?
    ensures var r := ReadLen(input).value;
            IsLength(input[..|input| - |r.rest|], r.value.value) && input == input[..|input| - |r.rest|] + r.rest
  {
    var r := ReadLen(input).value;
    var length := input[..|input| - |r.rest|];
    if input[0] > 0x80 {
      var k := input[0] - 0x80;
      assert length[1..k + 1] == input[1..k + 1];
    }
  }

  /** A minimal length reads back exactly when four octets hold it. */
  lemma MinimalReads(n: nat, rest: bytes)
    ensures n < FOUR_BYTES ==> IsLength(MinimalLength(n), n)
    ensures n >= FOUR_BYTES ==> ReadLen(MinimalLength(n) + rest).None?
  {
    if n >= 0x80 {
      FourDigits(n);
      BigEndianDigits(n);
      var m := MinimalLength(n);
      assert m[1..] == Digits(n);
      assert n < FOUR_BYTES ==> m[1..|Digits(n)| + 1] == Digits(n);
    }
  }

  // ---- what is read is what was encoded -----------------------------------

  /** An identifier and a definite length, read off the front. */
  lemma HeaderReads(id: byte, length: bytes, n: nat, after: bytes, input: bytes)
    requires IsLength(length, n) && input == [id] + length + after
    ensures input != [] && input[0] == id && ReadLen(input[1..]) == Some(Length(Some(n), after))
    ensures input[1..|input| - |after|] == length
  {
    LengthThen(length, n, after);
    assert input[1..] == length + after;
  }

  lemma ParsePrimitive(v: Value, depth: nat, rest: bytes)
    requires v.Primitive? && Valid(v) && depth <= MAX_DEPTH
    ensures Parse(Bytes(v) + rest, depth) == Some(Read(v, rest))
  {
    var after := v.content + rest;
    HeaderReads(v.id, v.length, |v.content|, after, Bytes(v) + rest);
    assert after[..|v.content|] == v.content && after[|v.content|..] == rest;
    hide ReadLen;
  }

  lemma ParseDefinite(v: Value, depth: nat, rest: bytes)
    requires v.Definite? && Valid(v) && depth <= MAX_DEPTH
    requires ParseAll(BytesOfAll(v.children), depth + 1) == Some(v.children)
    ensures Parse(Bytes(v) + rest, depth) == Some(Read(v, rest))
  {
    hide ReadLen, ParseAll, BytesOfAll, AllValid;
    var body := BytesOfAll(v.children);
    var after := body + rest;
    HeaderReads(v.id, v.length, |body|, after, Bytes(v) + rest);
    assert after[..|body|] == body && after[|body|..] == rest;
  }

  lemma ParseIndefinite(v: Value, depth: nat, rest: bytes)
    requires v.Indefinite? && Valid(v) && depth <= MAX_DEPTH
    requires ParseUntilEnd(BytesOfAll(v.children) + [0, 0] + rest, depth + 1) == Some(Read(v.children, rest))
    ensures Parse(Bytes(v) + rest, depth) == Some(Read(v, rest))
  {
    var input, after := Bytes(v) + rest, BytesOfAll(v.children) + [0, 0] + rest;
    assert input == [v.id, 0x80] + after;
    assert input[1..] == [0x80] + after && input[1..][1..] == after;
    assert ReadLen(input[1..]) == Some(Length(None, after));
    hide ReadLen, ParseUntilEnd, BytesOfAll, AllValid, NoneEnds;
  }

  /** Every encoding in the grammar is read back as it stands, whatever follows it. */
  lemma {:induction false} ParseBytes(v: Value, depth: nat, rest: bytes)
    requires Valid(v) && Height(v) + depth <= MAX_DEPTH
    ensures Parse(Bytes(v) + rest, depth) == Some(Read(v, rest))
    decreases v, 1
  {
    hide Parse;
    match v
    case Primitive(id, length, content) => ParsePrimitive(v, depth, rest);
    case Definite(id, length, children) => ParseAllBytes(children, depth + 1); ParseDefinite(v, depth, rest);
    case Indefinite(id, children) => ParseUntilBytes(children, depth + 1, rest); ParseIndefinite(v, depth, rest);
  }

  lemma {:induction false} ParseAllBytes(vs: seq<Value>, depth: nat)
    requires AllValid(vs) && HeightOfAll(vs) + depth <= MAX_DEPTH + 1
    ensures ParseAll(BytesOfAll(vs), depth) == Some(vs)
    decreases vs, 0
  {
    hide Parse;
    if vs != [] {
      ParseBytes(vs[0], depth, BytesOfAll(vs[1..]));
      ParseAllBytes(vs[1..], depth);
      BytesNonEmpty(vs[0]);
      assert [vs[0]] + vs[1..] == vs;
    }
  }

  lemma BytesNonEmpty(v: Value)
    ensures Bytes(v) != []
  {
  }

  lemma {:induction false} ParseUntilBytes(vs: seq<Value>, depth: nat, rest: bytes)
    requires AllValid(vs) && NoneEnds(vs) && HeightOfAll(vs) + depth <= MAX_DEPTH + 1
    ensures ParseUntilEnd(BytesOfAll(vs) + [0, 0] + rest, depth) == Some(Read(vs, rest))
    decreases vs, 0
  {
    hide Parse;
    var input := BytesOfAll(vs) + [0, 0] + rest;
    if vs == [] {
      assert input == [0, 0] + rest && input[2..] == rest;
    } else {
      var after := BytesOfAll(vs[1..]) + [0, 0] + rest;
      assert input == Bytes(vs[0]) + after;
      ParseBytes(vs[0], depth, after);
      ParseUntilBytes(vs[1..], depth, rest);
      TwoBytes(vs[0]);
      assert [vs[0]] + vs[1..] == vs;
    }
  }

  lemma TwoBytes(v: Value)
    requires Valid(v)
    ensures |Bytes(v)| >= 2
  {
  }

  /** An identifier, its length, and what is after them, are the whole input. */
  lemma HeaderOf(input: bytes)
    requires input != [] && ReadLen(input[1..]).Some? && ReadLen(input[1..]).value.value.Some?
    ensures var len := ReadLen(input[1..]).value;
            var length := input[1..|input| - |len.rest|];
            IsLength(length, len.value.value) && input == [input[0]] + length + len.rest
  {
    LengthOf(input[1..]);
    var len := ReadLen(input[1..]).value;
    hide ReadLen;
    assert input[1..|input| - |len.rest|] == input[1..][..|input[1..]| - |len.rest|];
    assert input == [input[0]] + input[1..];
  }

  /** Splitting what follows a header at the length leaves the input whole. */
  lemma Whole(input: bytes, header: bytes, after: bytes, n: nat)
    requires input == header + after && n <= |after|
    ensures header + after[..n] + after[n..] == input
  {
  }

  /** How a value read was put together, by its form. */
  lemma ParseParts(input: bytes, depth: nat)
    requires Parse(input, depth).Some?
    ensures input != [] && depth <= MAX_DEPTH && LowTag(input[0]) && ReadLen(input[1..]).Some?
    ensures var r, len := Parse(input, depth).value, ReadLen(input[1..]).value;
            var id, after := input[0], len.rest;
            match r.value
            case Primitive(i, length, content) =>
              && i == id && !ConstructedBit(id) && len.value.Some? && len.value.value <= |after|
              && length == input[1..|input| - |after|] && content == after[..len.value.value] && r.rest == after[len.value.value..]
            case Indefinite(i, vs) =>
              && i == id && ConstructedBit(id) && len.value.None?
              && ParseUntilEnd(after, depth + 1) == Some(Read(vs, r.rest))
            case Definite(i, length, vs) =>
              && i == id && ConstructedBit(id) && len.value.Some? && len.value.value <= |after|
              && length == input[1..|input| - |after|] && r.rest == after[len.value.value..]
              && ParseAll(after[..len.value.value], depth + 1) == Some(vs)
  {
    hide ReadLen, ParseAll, ParseUntilEnd;
  }

  lemma TailOf(input: bytes, after: bytes)
    requires input != [] && ReadLen(input[1..]) == Some(Length(None, after))
    ensures input == [input[0], 0x80] + after
  {
  }

  lemma IndefiniteWhole(v: Value, input: bytes, rest: bytes)
    requires v.Indefinite? && input != [] && v.id == input[0]
    requires ReadLen(input[1..]) == Some(Length(None, BytesOfAll(v.children) + [0, 0] + rest))
    ensures Bytes(v) + rest == input
  {
    var after := BytesOfAll(v.children) + [0, 0] + rest;
    TailOf(input, after);
    hide ReadLen, BytesOfAll;
    assert Bytes(v) + rest == [v.id, 0x80] + after;
  }

  lemma DefiniteWhole(v: Value, input: bytes, rest: bytes)
    requires v.Definite? && input != [] && v.id == input[0] && ReadLen(input[1..]).Some?
    requires var len := ReadLen(input[1..]).value;
             && len.value.Some? && len.value.value <= |len.rest|
             && v.length == input[1..|input| - |len.rest|] && rest == len.rest[len.value.value..]
             && BytesOfAll(v.children) == len.rest[..len.value.value]
    ensures Bytes(v) + rest == input && IsLength(v.length, |BytesOfAll(v.children)|)
  {
    HeaderOf(input);
    var len := ReadLen(input[1..]).value;
    hide ReadLen, BytesOfAll;
    Whole(input, [v.id] + v.length, len.rest, len.value.value);
  }

  lemma PrimitiveWhole(v: Value, input: bytes, rest: bytes)
    requires v.Primitive? && input != [] && v.id == input[0] && ReadLen(input[1..]).Some?
    requires var len := ReadLen(input[1..]).value;
             && len.value.Some? && len.value.value <= |len.rest|
             && v.length == input[1..|input| - |len.rest|] && rest == len.rest[len.value.value..]
             && v.content == len.rest[..len.value.value]
    ensures Bytes(v) + rest == input && IsLength(v.length, |v.content|)
  {
    HeaderOf(input);
    var len := ReadLen(input[1..]).value;
    hide ReadLen;
    Whole(input, [v.id] + v.length, len.rest, len.value.value);
  }

  ghost predicate ReadAsEncoded(input: bytes, depth: nat, r: Read<Value>) {
    Valid(r.value) && Bytes(r.value) + r.rest == input && Height(r.value) + depth <= MAX_DEPTH
  }

  lemma PrimitiveRead(input: bytes, depth: nat)
    requires Parse(input, depth).Some? && Parse(input, depth).value.value.Primitive?
    ensures ReadAsEncoded(input, depth, Parse(input, depth).value)
  {
    ParseParts(input, depth);
    hide Parse, ReadLen;
    var r := Parse(input, depth).value;
    PrimitiveWhole(r.value, input, r.rest);
    hide Bytes, IsLength;
    assert Valid(r.value) && Height(r.value) == 0;
  }

  lemma IndefiniteRead(input: bytes, depth: nat, vs: seq<Value>)
    requires Parse(input, depth).Some? && Parse(input, depth).value.value == Indefinite(input[0], vs)
    requires ReadLen(input[1..]).Some?
    requires AllValid(vs) && NoneEnds(vs) && (HeightOfAll(vs) + depth <= MAX_DEPTH || vs == [])
    requires ReadLen(input[1..]).value.rest == BytesOfAll(vs) + [0, 0] + Parse(input, depth).value.rest
    ensures ReadAsEncoded(input, depth, Parse(input, depth).value)
  {
    ParseParts(input, depth);
    hide Parse, ReadLen, ParseUntilEnd;
    var r := Parse(input, depth).value;
    IndefiniteWhole(r.value, input, r.rest);
    hide Bytes, BytesOfAll, AllValid, NoneEnds;
    assert Height(r.value) == HeightOfAll(vs);
    assert Valid(r.value);
  }

  lemma DefiniteRead(input: bytes, depth: nat, vs: seq<Value>)
    requires Parse(input, depth).Some? && Parse(input, depth).value.value.Definite?
    requires Parse(input, depth).value.value.children == vs
    requires ReadLen(input[1..]).Some? && ReadLen(input[1..]).value.value.Some?
    requires AllValid(vs) && (HeightOfAll(vs) + depth <= MAX_DEPTH || vs == [])
    requires var len := ReadLen(input[1..]).value; len.value.value <= |len.rest| && BytesOfAll(vs) == len.rest[..len.value.value]
    ensures ReadAsEncoded(input, depth, Parse(input, depth).value)
  {
    ParseParts(input, depth);
    hide Parse, ReadLen, ParseAll;
    var r := Parse(input, depth).value;
    DefiniteWhole(r.value, input, r.rest);
    hide Bytes, BytesOfAll, AllValid, IsLength;
    assert Height(r.value) == HeightOfAll(vs);
    assert Valid(r.value);
  }

  /** Whatever is read is an encoding in the grammar, of exactly the octets consumed. */
  lemma {:induction false} BytesParse(input: bytes, depth: nat)
    requires Parse(input, depth).Some?
    ensures ReadAsEncoded(input, depth, Parse(input, depth).value)
    decreases |input|, 3
  {
    hide Parse, ReadAsEncoded;
    var v := Parse(input, depth).value.value;
    if v.Primitive? {
      PrimitiveRead(input, depth);
    } else if v.Indefinite? {
      IndefiniteParse(input, depth);
    } else {
      DefiniteParse(input, depth);
    }
  }

  lemma {:induction false} IndefiniteParse(input: bytes, depth: nat)
    requires Parse(input, depth).Some? && Parse(input, depth).value.value.Indefinite?
    ensures ReadAsEncoded(input, depth, Parse(input, depth).value)
    decreases |input|, 2
  {
    ParseParts(input, depth);
    hide Parse, ParseUntilEnd, Valid, Bytes, Height, ReadAsEncoded, EndOfContents;
    var after := ReadLen(input[1..]).value.rest;
    assert |after| < |input|;
    hide ReadLen;
    BytesParseUntil(after, depth + 1);
    IndefiniteRead(input, depth, Parse(input, depth).value.value.children);
  }

  lemma {:induction false} DefiniteParse(input: bytes, depth: nat)
    requires Parse(input, depth).Some? && Parse(input, depth).value.value.Definite?
    ensures ReadAsEncoded(input, depth, Parse(input, depth).value)
    decreases |input|, 2
  {
    ParseParts(input, depth);
    hide Parse, ParseAll, Valid, Bytes, Height, ReadAsEncoded;
    var len := ReadLen(input[1..]).value;
    assert |len.rest| < |input|;
    hide ReadLen;
    BytesParseAll(len.rest[..len.value.value], depth + 1);
    DefiniteRead(input, depth, Parse(input, depth).value.value.children);
  }

  lemma {:induction false} BytesParseAll(region: bytes, depth: nat)
    requires ParseAll(region, depth).Some? && depth > 0
    ensures var vs := ParseAll(region, depth).value;
            AllValid(vs) && BytesOfAll(vs) == region && (HeightOfAll(vs) + depth <= MAX_DEPTH + 1 || vs == [])
    decreases |region|, 4
  {
    if region != [] {
      BytesParse(region, depth);
      BytesParseAll(Parse(region, depth).value.rest, depth);
    }
  }

  lemma FrontIsNoEnd(v: Value, rest: bytes)
    requires Valid(v) && !EndOfContents(Bytes(v) + rest)
    ensures !EndOfContents(Bytes(v))
  {
    TwoBytes(v);
  }

  lemma {:induction false} BytesParseUntil(region: bytes, depth: nat)
    requires ParseUntilEnd(region, depth).Some? && depth > 0
    ensures var r := ParseUntilEnd(region, depth).value;
            && AllValid(r.value) && NoneEnds(r.value) && BytesOfAll(r.value) + [0, 0] + r.rest == region
            && (HeightOfAll(r.value) + depth <= MAX_DEPTH + 1 || r.value == [])
    decreases |region|, 4
  {
    hide Parse, Valid, Height;
    if !EndOfContents(region) {
      BytesParse(region, depth);
      var first := Parse(region, depth).value;
      BytesParseUntil(first.rest, depth);
      FrontIsNoEnd(first.value, first.rest);
      var r := ParseUntilEnd(first.rest, depth).value;
      hide EndOfContents, Bytes;
      assert ([first.value] + r.value)[1..] == r.value;
    }
  }
}
