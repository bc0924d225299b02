/** What transcoding gives: the same content, in one normal form, which is left as it stands. */
module BerMeaning {
  import opened Wrappers
  import opened Ber

  // ---- exactly the values in the grammar ----------------------------------

  ghost predicate Transcodes(v: Value, input: bytes, output: bytes) {
    && Valid(v) && Height(v) <= MAX_DEPTH && Bytes(v) == input
    && Collapse(v).Some? && output == Encode(Collapse(v).value)
  }

  /** The transcoder answers exactly the encodings in the grammar whose chunks collapse, with what they
      collapse to, and refuses everything else. */
  lemma ToDerExactly(input: bytes, output: bytes)
    ensures ToDer(input) == Some(output) <==> exists v :: Transcodes(v, input, output)
  {
    if ToDer(input) == Some(output) {
      BytesParse(input, 0);
      var r := Parse(input, 0).value;
      hide Parse, Valid, Height, Bytes, Collapse, Encode;
      assert Bytes(r.value) == input;
      assert Transcodes(r.value, input, output);
    }
    if v :| Transcodes(v, input, output) {
      TranscodesTo(v, input, output);
    }
  }

  lemma TranscodesTo(v: Value, input: bytes, output: bytes)
    requires Transcodes(v, input, output)
    ensures ToDer(input) == Some(output)
  {
    ParseBytes(v, 0, []);
    hide Parse, Valid, Height, Bytes, Collapse, Encode;
    assert input + [] == input;
  }

  // ---- content is kept ----------------------------------------------------

  function ValueContent(v: Value): bytes
    decreases v, 1
  {
    if v.Primitive? then v.content else ValueContents(v.children)
  }

  function ValueContents(vs: seq<Value>): bytes
    decreases vs, 0
  {
    if vs == [] then [] else ValueContent(vs[0]) + ValueContents(vs[1..])
  }

  function TlvContent(t: Tlv): bytes
    decreases t, 1
  {
    match t
    case Leaf(id, content) => content
    case Node(id, children) => TlvContents(children)
  }

  function TlvContents(ts: seq<Tlv>): bytes
    decreases ts, 0
  {
    if ts == [] then [] else TlvContent(ts[0]) + TlvContents(ts[1..])
  }

  lemma {:induction false} JoinedIsContents(ts: seq<Tlv>)
    requires forall i :: 0 <= i < |ts| ==> ts[i].Leaf?
    ensures Joined(ts) == TlvContents(ts)
  {
    if ts != [] {
      JoinedIsContents(ts[1..]);
    }
  }

  /** Neither a rewritten length nor a collapsed chunk loses, adds or reorders an octet of content. */
  lemma {:induction false} ContentKept(v: Value)
    requires Collapse(v).Some?
    ensures TlvContent(Collapse(v).value) == ValueContent(v)
    decreases v, 1
  {
    if !v.Primitive? {
      ContentsKept(v.children);
      var ts := CollapseAll(v.children).value;
      if forall i :: 0 <= i < |ts| ==> ts[i].Leaf? {
        JoinedIsContents(ts);
      }
    }
  }

  lemma {:induction false} ContentsKept(vs: seq<Value>)
    requires CollapseAll(vs).Some?
    ensures TlvContents(CollapseAll(vs).value) == ValueContents(vs)
    decreases vs, 0
  {
    if vs != [] {
      ContentKept(vs[0]);
      ContentsKept(vs[1..]);
    }
  }

  /** All the content octets of what was read are in what was written, in order. */
  lemma ToDerKeepsContent(v: Value, input: bytes, output: bytes)
    requires Transcodes(v, input, output)
    ensures exists t :: Normal(t) && output == Encode(t) && TlvContent(t) == ValueContent(v)
  {
    CollapseNormal(v);
    ContentKept(v);
  }

  // ---- the normal form ----------------------------------------------------

  /** No chunked octet string is left: neither the universal one, nor a context tag over octet strings alone. */
  predicate Normal(t: Tlv)
    decreases t, 1
  {
    match t
    case Leaf(id, content) => LowTag(id) && !ConstructedBit(id)
    case Node(id, children) =>
      && LowTag(id) && ConstructedBit(id) && AllNormal(children)
      && id != 0x24 && !(ContextClass(id) && children != [] && AllOctets(children))
  }

  predicate AllNormal(ts: seq<Tlv>)
    decreases ts, 0
  {
    ts != [] ==> Normal(ts[0]) && AllNormal(ts[1..])
  }

  function Depth(t: Tlv): nat
    decreases t, 1
  {
    match t
    case Leaf(_, _) => 0
    case Node(_, children) => DepthOfAll(children)
  }

  function DepthOfAll(ts: seq<Tlv>): nat
    decreases ts, 0
  {
    if ts == [] then 0
    else
      var d, rest := Depth(ts[0]) + 1, DepthOfAll(ts[1..]);
      if d > rest then d else rest
  }

  lemma PrimitiveForm(id: byte)
    requires LowTag(id) && ConstructedBit(id) && ContextClass(id)
    ensures id >= 32 && LowTag(id - 32) && !ConstructedBit(id - 32)
  {
  }

  lemma {:induction false} CollapseNormal(v: Value)
    requires Valid(v) && Collapse(v).Some?
    ensures Normal(Collapse(v).value) && Depth(Collapse(v).value) <= Height(v)
    decreases v, 1
  {
    if !v.Primitive? {
      CollapseAllNormal(v.children);
      if ContextClass(v.id) {
        PrimitiveForm(v.id);
      }
    }
  }

  lemma {:induction false} CollapseAllNormal(vs: seq<Value>)
    requires AllValid(vs) && CollapseAll(vs).Some?
    ensures AllNormal(CollapseAll(vs).value) && DepthOfAll(CollapseAll(vs).value) <= HeightOfAll(vs)
    decreases vs, 0
  {
    if vs != [] {
      CollapseNormal(vs[0]);
      CollapseAllNormal(vs[1..]);
      var ts := CollapseAll(vs).value;
      assert ts[0] == Collapse(vs[0]).value && ts[1..] == CollapseAll(vs[1..]).value;
    }
  }

  // ---- the normal form read back ------------------------------------------

  /** A normal value as it is encoded: every length definite and minimal. */
  function AsValue(t: Tlv): Value
    decreases t, 1
  {
    match t
    case Leaf(id, content) => Primitive(id, MinimalLength(|content|), content)
    case Node(id, children) => Definite(id, MinimalLength(|EncodeAll(children)|), AsValues(children))
  }

  function AsValues(ts: seq<Tlv>): seq<Value>
    decreases ts, 0
  {
    if ts == [] then [] else [AsValue(ts[0])] + AsValues(ts[1..])
  }

  function ContentLength(t: Tlv): nat {
    match t
    case Leaf(_, content) => |content|
    case Node(_, children) => |EncodeAll(children)|
  }

  lemma {:induction false} AsValueBytes(t: Tlv)
    ensures Bytes(AsValue(t)) == Encode(t) && Height(AsValue(t)) == Depth(t)
    decreases t, 1
  {
    if t.Node? {
      AsValuesBytes(t.children);
    }
  }

  lemma {:induction false} AsValuesBytes(ts: seq<Tlv>)
    ensures BytesOfAll(AsValues(ts)) == EncodeAll(ts) && HeightOfAll(AsValues(ts)) == DepthOfAll(ts)
    decreases ts, 0
  {
    if ts != [] {
      AsValueBytes(ts[0]);
      AsValuesBytes(ts[1..]);
    }
  }

  lemma {:induction false} AsValueCollapses(t: Tlv)
    requires Normal(t)
    ensures Collapse(AsValue(t)) == Some(t)
    decreases t, 1
  {
    if t.Node? {
      AsValuesCollapse(t.children);
    }
  }

  lemma {:induction false} AsValuesCollapse(ts: seq<Tlv>)
    requires AllNormal(ts)
    ensures CollapseAll(AsValues(ts)) == Some(ts)
    decreases ts, 0
  {
    if ts != [] {
      AsValueCollapses(ts[0]);
      AsValuesCollapse(ts[1..]);
      assert [ts[0]] + ts[1..] == ts;
    }
  }

  /** Four length octets for the outermost content are enough for everything inside it. */
  lemma {:induction false} AsValueValid(t: Tlv)
    requires Normal(t) && ContentLength(t) < FOUR_BYTES
    ensures Valid(AsValue(t))
    decreases t, 1
  {
    MinimalReads(ContentLength(t), []);
    if t.Node? {
      AsValuesValid(t.children);
      AsValuesBytes(t.children);
    }
  }

  lemma {:induction false} AsValuesValid(ts: seq<Tlv>)
    requires AllNormal(ts) && |EncodeAll(ts)| < FOUR_BYTES
    ensures AllValid(AsValues(ts))
    decreases ts, 0
  {
    if ts != [] {
      AsValueValid(ts[0]);
      AsValuesValid(ts[1..]);
    }
  }

  lemma NormalStands(t: Tlv)
    requires Normal(t) && Depth(t) <= MAX_DEPTH && ContentLength(t) < FOUR_BYTES
    ensures ToDer(Encode(t)) == Some(Encode(t))
  {
    AsValueBytes(t);
    AsValueCollapses(t);
    AsValueValid(t);
    TranscodesTo(AsValue(t), Encode(t), Encode(t));
  }

  /** What is longer than four octets can say is not read back. */
  lemma LongRefused(t: Tlv)
    requires ContentLength(t) >= FOUR_BYTES
    ensures ToDer(Encode(t)).None?
  {
    var n, content := ContentLength(t), if t.Leaf? then t.content else EncodeAll(t.children);
    MinimalReads(n, content);
    assert Encode(t)[1..] == MinimalLength(n) + content;
  }

  ghost predicate Standing(t: Tlv, x: bytes) {
    Normal(t) && Depth(t) <= MAX_DEPTH && ContentLength(t) < FOUR_BYTES && x == Encode(t)
  }

  lemma OutputNormal(x: bytes, y: bytes) returns (t: Tlv)
    requires ToDer(x) == Some(y)
    ensures Normal(t) && Depth(t) <= MAX_DEPTH && y == Encode(t)
  {
    ToDerExactly(x, y);
    var v :| Transcodes(v, x, y);
    CollapseNormal(v);
    t := Collapse(v).value;
  }

  /** An input comes back unchanged exactly when it is a normal value, minimally encoded, no deeper than
      the bound and with a length of at most four octets. */
  lemma FixedPoints(x: bytes)
    ensures ToDer(x) == Some(x) <==> exists t :: Standing(t, x)
  {
    if ToDer(x) == Some(x) {
      var t := OutputNormal(x, x);
      if ContentLength(t) >= FOUR_BYTES {
        LongRefused(t);
      }
      assert Standing(t, x);
    }
    if t :| Standing(t, x) {
      NormalStands(t);
    }
  }

  lemma EncodedLength(t: Tlv)
    ensures ContentLength(t) < FOUR_BYTES <==> |Encode(t)| < FOUR_BYTES + 6
  {
    FourDigits(ContentLength(t));
  }

  /** Transcoding again changes nothing, exactly while the output is short enough for its length to be read. */
  lemma Idempotent(x: bytes, y: bytes)
    requires ToDer(x) == Some(y)
    ensures if |y| < FOUR_BYTES + 6 then ToDer(y) == Some(y) else ToDer(y).None?
  {
    var t := OutputNormal(x, y);
    EncodedLength(t);
    if ContentLength(t) < FOUR_BYTES {
      NormalStands(t);
    } else {
      LongRefused(t);
    }
  }

  /** Not every DER value comes back unchanged: an explicit context tag over one octet string loses a level. */
  lemma ExplicitTagRewritten()
    ensures ToDer([0xa0, 4, 4, 2, 0x61, 0x62]) == Some([0x80, 2, 0x61, 0x62])
  {
    var inner := Primitive(0x04, [2], [0x61, 0x62]);
    var v := Definite(0xa0, [4], [inner]);
    assert [inner][1..] == [];
    assert BytesOfAll([inner]) == Bytes(inner) == [4, 2, 0x61, 0x62];
    assert Bytes(v) == [0xa0, 4, 4, 2, 0x61, 0x62];
    assert Valid(inner) && Height(inner) == 0 && AllValid([]) && HeightOfAll([]) == 0;
    assert AllValid([inner]) && HeightOfAll([inner]) == 1;
    var leaf := Leaf(0x04, [0x61, 0x62]);
    assert Collapse(inner) == Some(leaf) && CollapseAll([]) == Some([]) && [leaf] + [] == [leaf] && [leaf][1..] == [];
    assert CollapseAll([inner]) == Some([leaf]);
    assert Joined([leaf]) == leaf.content + Joined([]) == [0x61, 0x62];
    assert Collapse(v) == Some(Leaf(0x80, [0x61, 0x62]));
    TranscodesTo(v, Bytes(v), [0x80, 2, 0x61, 0x62]);
  }
}
