/** How identifiers come through transcoding: which value is written for the one read, and when there is none. */
module BerTags {
  import opened Wrappers
  import opened Numbers
  import opened Ber
  import opened BerMeaning

  /** Same class and tag number; bit 6 aside. */
  predicate SameTag(a: byte, b: byte) {
    a / 64 == b / 64 && a % 32 == b % 32
  }

  /** An octet string, in one piece or in chunks. */
  predicate IsString(v: Value) {
    v.id == 0x04 || v.id == 0x24
  }

  predicate Strings(vs: seq<Value>) {
    forall i :: 0 <= i < |vs| ==> IsString(vs[i])
  }

  /** A constructed value that stands for one string: the octet string in chunks, and a context tag over octet
      strings and nothing else. */
  predicate InChunks(v: Value) {
    !v.Primitive? && (v.id == 0x24 || (ContextClass(v.id) && v.children != [] && Strings(v.children)))
  }

  /** What is written for a value: chunks become one primitive under the same tag with all their content, everything
      else keeps its identifier, a constructed value with its children one for one. */
  ghost predicate Transcribed(v: Value, t: Tlv)
    decreases v
  {
    if v.Primitive? then t == Leaf(v.id, v.content)
    else if InChunks(v) then t.Leaf? && SameTag(t.id, v.id) && !ConstructedBit(t.id) && t.content == ValueContent(v)
    else
      && t.Node? && t.id == v.id && |t.children| == |v.children|
      && forall i :: 0 <= i < |v.children| ==> Transcribed(v.children[i], t.children[i])
  }

  /** The values that can be written: whatever is in chunks is made of octet strings, each short enough to be read. */
  ghost predicate Collapsible(v: Value)
    decreases v
  {
    v.Primitive? ||
    (&& (forall i :: 0 <= i < |v.children| ==> Collapsible(v.children[i]))
     && (InChunks(v) ==> forall i :: 0 <= i < |v.children| ==>
           IsString(v.children[i]) && |ValueContent(v.children[i])| < FOUR_BYTES))
  }

  lemma {:induction false} WrittenString(v: Value)
    requires Valid(v) && Collapse(v).Some?
    ensures OctetString(Collapse(v).value) <==> IsString(v)
    ensures IsString(v) ==> Collapse(v).value == Leaf(0x04, ValueContent(v))
  {
    ContentKept(v);
  }

  lemma {:induction false} CollapsedAll(vs: seq<Value>)
    requires AllValid(vs)
    ensures CollapseAll(vs).Some? <==> forall i :: 0 <= i < |vs| ==> Collapse(vs[i]).Some?
    ensures forall i :: 0 <= i < |vs| ==> Valid(vs[i])
    ensures CollapseAll(vs).Some? ==> forall i :: 0 <= i < |vs| ==> Collapse(vs[i]) == Some(CollapseAll(vs).value[i])
    decreases vs
  {
    hide Collapse, Valid;
    if vs != [] {
      CollapsedAll(vs[1..]);
      assert forall i :: 0 < i < |vs| ==> vs[i] == vs[1..][i - 1];
    }
  }

  /** Chunks can be joined exactly if they are octet strings short enough. */
  lemma ChunksExactly(vs: seq<Value>)
    requires AllValid(vs) && CollapseAll(vs).Some?
    ensures var ts := CollapseAll(vs).value;
            && (AllOctets(ts) <==> Strings(vs))
            && ((forall i :: 0 <= i < |ts| ==> Chunk(ts[i])) <==>
                forall i :: 0 <= i < |vs| ==> IsString(vs[i]) && |ValueContent(vs[i])| < FOUR_BYTES)
  {
    CollapsedAll(vs);
    forall i | 0 <= i < |vs|
      ensures var t := CollapseAll(vs).value[i];
              && (OctetString(t) <==> IsString(vs[i]))
              && (Chunk(t) <==> IsString(vs[i]) && |ValueContent(vs[i])| < FOUR_BYTES)
    {
      WrittenString(vs[i]);
    }
    hide Collapse, CollapseAll, Valid, AllValid, ValueContent, Chunk, OctetString;
  }

  /** A value collapses exactly if it can be written, and to what is written for it. */
  lemma {:induction false} CollapseTranscribes(v: Value)
    requires Valid(v)
    ensures Collapse(v).Some? <==> Collapsible(v)
    ensures Collapse(v).Some? ==> Transcribed(v, Collapse(v).value)
    decreases v
  {
    if !v.Primitive? {
      CollapsedAll(v.children);
      forall i | 0 <= i < |v.children| ensures Written(v.children[i]) {
        CollapseTranscribes(v.children[i]);
      }
      ParentTranscribes(v);
    }
  }

  ghost predicate Written(v: Value) {
    && (Collapse(v).Some? <==> Collapsible(v))
    && (Collapse(v).Some? ==> Transcribed(v, Collapse(v).value))
  }

  lemma ParentTranscribes(v: Value)
    requires Valid(v) && !v.Primitive? && AllValid(v.children) && ConstructedBit(v.id)
    requires forall i :: 0 <= i < |v.children| ==> Written(v.children[i])
    ensures Written(v)
  {
    hide Valid, AllValid, Chunk, OctetString, AllOctets, Joined, CollapseAll, ValueContent, TlvContent;
    var ts := CollapseAll(v.children);
    CollapsedAll(v.children);
    if ts.Some? {
      ChunksExactly(v.children);
      if Collapse(v).Some? {
        ContentKept(v);
        LeafContent(Collapse(v).value);
      }
    }
  }

  lemma LeafContent(t: Tlv)
    ensures t.Leaf? ==> TlvContent(t) == t.content
  {
  }

  /** What is written for a value is settled by it. */
  lemma {:induction false} TranscribedUnique(v: Value, s: Tlv, t: Tlv)
    requires Transcribed(v, s) && Transcribed(v, t)
    ensures s == t
    decreases v
  {
    if !v.Primitive? && !InChunks(v) {
      forall i | 0 <= i < |v.children| ensures s.children[i] == t.children[i] {
        TranscribedUnique(v.children[i], s.children[i], t.children[i]);
      }
      assert s.children == t.children;
    }
  }

  ghost predicate Transcribes(v: Value, t: Tlv, input: bytes, output: bytes) {
    && Valid(v) && Height(v) <= 64 && Bytes(v) == input
    && Collapsible(v) && Transcribed(v, t) && output == Encode(t)
  }

  /** The transcoder answers exactly the encodings in the grammar that can be written, with what is written for them. */
  lemma TagsKept(input: bytes, output: bytes)
    ensures ToDer(input) == Some(output) <==> exists v, t :: Transcribes(v, t, input, output)
  {
    hide Valid, Height, Bytes, Encode, Collapse, Collapsible, Transcribed, ToDer;
    ToDerExactly(input, output);
    if ToDer(input) == Some(output) {
      var v :| Transcodes(v, input, output);
      CollapseTranscribes(v);
      assert Transcribes(v, Collapse(v).value, input, output);
    }
    if v, t :| Transcribes(v, t, input, output) {
      CollapseTranscribes(v);
      TranscribedUnique(v, t, Collapse(v).value);
      assert Transcodes(v, input, output);
    }
  }

  // ---- identifiers and lengths --------------------------------------------

  /** What the tests on identifiers look at: the low five bits, bit 6, and the class in bits 8 and 7. */
  lemma BitsExactly(id: byte)
    ensures LowTag(id) <==> (id as bv8) & 0x1f != 0x1f
    ensures ConstructedBit(id) <==> (id as bv8) & 0x20 != 0
    ensures ContextClass(id) <==> (id as bv8) & 0xc0 == 0x80
  {
  }

  /** The octets that read as a length: itself below 128, or a count of up to four octets and so many octets, the most
      significant first, which need not be the fewest. */
  lemma LengthExactly(length: bytes, n: nat)
    ensures IsLength(length, n) <==>
              || (n < 128 && length == [n])
              || (2 <= |length| <= 5 && length[0] == 128 + (|length| - 1) && BigEndian(length[1..]) == n)
  {
    if length != [] && length[0] > 0x80 {
      var k := length[0] - 0x80;
      if k <= 4 && k == |length| - 1 {
        assert length[1..k + 1] == length[1..];
      }
    }
  }

  // ---- the shortest length ------------------------------------------------

  lemma {:induction false} DigitsUnique(d: bytes, n: nat)
    requires d != [] && BigEndian(d) == n && |d| == |Digits(n)|
    ensures d == Digits(n)
    decreases |d|
  {
    var front := d[..|d| - 1];
    assert n == 256 * BigEndian(front) + d[|d| - 1];
    assert n / 256 == BigEndian(front) && n % 256 == d[|d| - 1];
    if n >= 256 {
      assert front != [];
      DigitsUnique(front, n / 256);
      assert d == front + [d[|d| - 1]];
    }
  }

  lemma LongLength(length: bytes, n: nat)
    requires IsLength(length, n) && length[0] > 0x80
    ensures |length| >= 2 && |length| <= 5 && BigEndian(length[1..]) == n
  {
    var k := length[0] - 0x80;
    assert length[1..k + 1] == length[1..];
  }

  lemma EnoughDigits(d: bytes, n: nat)
    requires d != [] && BigEndian(d) == n
    ensures |Digits(n)| <= |d|
  {
    ReadsFixed(d);
    DigitsWithin(n, |d|);
  }

  /** No other octets that read as this length are as short as the ones written. */
  lemma MinimalIsLeast(length: bytes, n: nat)
    requires IsLength(length, n)
    ensures |length| >= |MinimalLength(n)|
    ensures |length| == |MinimalLength(n)| ==> length == MinimalLength(n)
  {
    if length[0] > 0x80 {
      var d := length[1..];
      LongLength(length, n);
      EnoughDigits(d, n);
      assert length[0] == 0x80 + |d| && length == [length[0]] + d;
      hide BigEndian, Digits, ReadLen, IsLength;
      if n >= 0x80 && |d| == |Digits(n)| {
        DigitsUnique(d, n);
      }
    }
  }

  // ---- as it looks --------------------------------------------------------

  /** A short primitive as it is read and as it is written. */
  lemma ShortOne(id: byte, content: bytes)
    requires LowTag(id) && !ConstructedBit(id) && |content| < 128
    ensures var v := Primitive(id, [|content|], content);
            Valid(v) && Bytes(v) == [id, |content|] + content && Transcribed(v, Leaf(id, content)) && Collapsible(v)
    ensures Encode(Leaf(id, content)) == [id, |content|] + content
  {
  }

  lemma EncodeOver(id: byte, t: Tlv)
    requires |Encode(t)| < 128
    ensures Encode(Node(id, [t])) == [id, |Encode(t)|] + Encode(t)
  {
    assert [t][1..] == [] && EncodeAll([t]) == Encode(t) + EncodeAll([]) == Encode(t);
  }

  /** A chunked octet string comes out whole. */
  lemma ChunksComeOutWhole()
    ensures ToDer([0x24, 0x80, 4, 2, 0x61, 0x62, 0, 0]) == Some([4, 2, 0x61, 0x62])
  {
    hide ToDer, Bytes, Encode, Valid, Height;
    var chunk := Primitive(0x04, [2], [0x61, 0x62]);
    ShortOne(0x04, [0x61, 0x62]);
    assert Bytes(chunk) == [4, 2, 0x61, 0x62];
    OverOne(0x24, chunk);
    hide ValueContent;
    OneInside(0x24, chunk, Leaf(0x04, [0x61, 0x62]));
    assert Encode(Leaf(0x04, [0x61, 0x62])) == [4, 2, 0x61, 0x62];
    assert [0x24, 0x80] + Bytes(chunk) + [0, 0] == [0x24, 0x80, 4, 2, 0x61, 0x62, 0, 0];
  }

  /** A sequence comes out with its length made definite. */
  lemma SequenceStaysOne()
    ensures ToDer([0x30, 0x80, 2, 1, 1, 0, 0]) == Some([0x30, 3, 2, 1, 1])
  {
    hide ToDer, Bytes, Encode, Valid, Height, ValueContent;
    var number := Primitive(0x02, [1], [1]);
    var leaf := Leaf(0x02, [1]);
    ShortOne(0x02, [1]);
    assert Bytes(number) == [2, 1, 1];
    OneInside(0x30, number, Node(0x30, [leaf]));
    assert Encode(leaf) == [2, 1, 1];
    EncodeOver(0x30, leaf);
    assert [0x30, 3] + Encode(leaf) == [0x30, 3, 2, 1, 1];
    assert [0x30, 0x80] + Bytes(number) + [0, 0] == [0x30, 0x80, 2, 1, 1, 0, 0];
  }

  lemma OneInside(id: byte, v: Value, t: Tlv)
    requires Valid(v) && v.Primitive? && LowTag(id) && ConstructedBit(id) && !EndOfContents(Bytes(v))
    requires Transcribed(Indefinite(id, [v]), t) && Collapsible(Indefinite(id, [v]))
    ensures ToDer([id, 0x80] + Bytes(v) + [0, 0]) == Some(Encode(t))
  {
    OverOne(id, v);
    hide ToDer, Valid, Height, Bytes, Encode, Collapsible, Transcribed;
    var input, output := [id, 0x80] + Bytes(v) + [0, 0], Encode(t);
    TagsKept(input, output);
    assert Transcribes(Indefinite(id, [v]), t, input, output);
  }

  lemma OverOne(id: byte, v: Value)
    requires Valid(v) && v.Primitive? && LowTag(id) && ConstructedBit(id) && !EndOfContents(Bytes(v))
    ensures var w := Indefinite(id, [v]);
            Valid(w) && Height(w) == 1 && Bytes(w) == [id, 0x80] + Bytes(v) + [0, 0] && ValueContent(w) == v.content && ValueContent(v) == v.content
  {
    assert [v][1..] == [];
    assert BytesOfAll([v]) == Bytes(v) + BytesOfAll([]) == Bytes(v);
    assert ValueContents([v]) == ValueContent(v) + ValueContents([]);
    assert AllValid([]) && NoneEnds([]) && HeightOfAll([]) == 0;
    assert Height(v) == 0;
    assert HeightOfAll([v]) == 1;
    assert AllValid([v]) && NoneEnds([v]);
  }
}
