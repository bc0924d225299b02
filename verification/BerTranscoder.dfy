/** The transcoder as it runs, on octets alone: regions consumed child by child, bodies built up. */
module BerTranscoder {
  import opened Wrappers
  import opened Ber
  import opened BerMeaning

  // ---- what each step takes -----------------------------------------------

  ghost function Taken(input: bytes, depth: nat): Option<Read<Tlv>> {
    var v := Parse(input, depth);
    if v.None? then None
    else
      var t := Collapse(v.value.value);
      if t.None? then None else Some(Read(t.value, v.value.rest))
  }

  ghost function TakenAll(region: bytes, depth: nat): Option<seq<Tlv>> {
    var vs := ParseAll(region, depth);
    if vs.None? then None else CollapseAll(vs.value)
  }

  ghost function TakenUntilEnd(region: bytes, depth: nat): Option<Read<seq<Tlv>>> {
    var vs := ParseUntilEnd(region, depth);
    if vs.None? then None
    else
      var ts := CollapseAll(vs.value.value);
      if ts.None? then None else Some(Read(ts.value, vs.value.rest))
  }

  ghost function After(done: seq<Tlv>, more: Option<seq<Tlv>>): Option<seq<Tlv>> {
    if more.None? then None else Some(done + more.value)
  }

  ghost function AfterRead(done: seq<Tlv>, more: Option<Read<seq<Tlv>>>): Option<Read<seq<Tlv>>> {
    if more.None? then None else Some(Read(done + more.value.value, more.value.rest))
  }

  lemma AfterNothing(all: Option<seq<Tlv>>, until: Option<Read<seq<Tlv>>>)
    ensures After([], all) == all && AfterRead([], until) == until
  {
    assert all.Some? ==> [] + all.value == all.value;
    assert until.Some? ==> [] + until.value.value == until.value.value;
  }

  lemma AfterOneMore(ts: seq<Tlv>, t: Tlv, all: Option<seq<Tlv>>, until: Option<Read<seq<Tlv>>>)
    ensures After(ts + [t], all) == After(ts, After([t], all))
    ensures AfterRead(ts + [t], until) == AfterRead(ts, AfterRead([t], until))
  {
    assert all.Some? ==> ts + [t] + all.value == ts + ([t] + all.value);
    assert until.Some? ==> ts + [t] + until.value.value == ts + ([t] + until.value.value);
  }

  lemma AfterAll(ts: seq<Tlv>)
    ensures After(ts, Some([])) == Some(ts)
    ensures forall rest :: AfterRead(ts, Some(Read([], rest))) == Some(Read(ts, rest))
  {
    assert ts + [] == ts;
  }

  lemma TakenAllStep(region: bytes, depth: nat)
    requires region != []
    ensures var first := Taken(region, depth);
            TakenAll(region, depth) ==
            if first.None? then None else After([first.value.value], TakenAll(first.value.rest, depth))
  {
  }

  lemma TakenUntilStep(region: bytes, depth: nat)
    requires !EndOfContents(region)
    ensures var first := Taken(region, depth);
            TakenUntilEnd(region, depth) ==
            if first.None? then None else AfterRead([first.value.value], TakenUntilEnd(first.value.rest, depth))
  {
  }

  lemma TakenNormal(input: bytes, depth: nat)
    requires Taken(input, depth).Some?
    ensures Normal(Taken(input, depth).value.value)
  {
    BytesParse(input, depth);
    CollapseNormal(Parse(input, depth).value.value);
  }

  // ---- a child, seen as octets --------------------------------------------

  ghost predicate Encoded(children: seq<bytes>, ts: seq<Tlv>) {
    && |children| == |ts|
    && forall i :: 0 <= i < |ts| ==> Normal(ts[i]) && children[i] == Encode(ts[i])
  }

  /** The content of an encoded octet string. */
  function OctetValue(der: bytes): Option<bytes> {
    if der == [] || der[0] != 0x04 then None
    else
      var len := ReadLen(der[1..]);
      if len.None? || len.value.value.None? || len.value.value.value > |len.value.rest| then None
      else Some(len.value.rest[..len.value.value.value])
  }

  lemma OctetValueOf(t: Tlv)
    requires Normal(t)
    ensures Encode(t) != [] && Encode(t)[0] == t.id
    ensures OctetValue(Encode(t)) == if Chunk(t) then Some(t.content) else None
  {
    if t.id == 0x04 {
      MinimalReads(|t.content|, t.content);
      assert Encode(t)[1..] == MinimalLength(|t.content|) + t.content;
      if Chunk(t) {
        LengthThen(MinimalLength(|t.content|), |t.content|, t.content);
        assert t.content[..|t.content|] == t.content;
      }
    }
  }

  lemma {:induction false} JoinedMore(ts: seq<Tlv>, t: Tlv)
    requires t.Leaf? && forall i :: 0 <= i < |ts| ==> ts[i].Leaf?
    ensures forall i :: 0 <= i < |ts + [t]| ==> (ts + [t])[i].Leaf?
    ensures Joined(ts + [t]) == Joined(ts) + t.content
  {
    if ts == [] {
      assert [t][1..] == [];
    } else {
      JoinedMore(ts[1..], t);
      assert (ts + [t])[1..] == ts[1..] + [t];
    }
  }

  lemma {:induction false} EncodeAllMore(ts: seq<Tlv>, t: Tlv)
    ensures EncodeAll(ts + [t]) == EncodeAll(ts) + Encode(t)
  {
    if ts == [] {
      assert [t][1..] == [];
    } else {
      EncodeAllMore(ts[1..], t);
      assert (ts + [t])[1..] == ts[1..] + [t];
    }
  }

  // ---- the transcoder -----------------------------------------------------

  /** The values of a chunked string's children, put together. */
  method JoinChunks(children: seq<bytes>, ghost ts: seq<Tlv>) returns (r: Option<bytes>)
    requires Encoded(children, ts)
    ensures r.Some? <==> forall i :: 0 <= i < |ts| ==> Chunk(ts[i])
    ensures r.Some? ==> r.value == Joined(ts)
  {
    var body := [];
    for n := 0 to |children|
      invariant forall i :: 0 <= i < n ==> Chunk(ts[i])
      invariant body == Joined(ts[..n])
    {
      OctetValueOf(ts[n]);
      var value := OctetValue(children[n]);
      if value.None? {
        return None;
      }
      JoinedMore(ts[..n], ts[n]);
      assert ts[..n] + [ts[n]] == ts[..n + 1];
      body := body + value.value;
    }
    assert ts[..|ts|] == ts;
    return Some(body);
  }

  method Concatenate(children: seq<bytes>, ghost ts: seq<Tlv>) returns (body: bytes)
    requires Encoded(children, ts)
    ensures body == EncodeAll(ts)
  {
    body := [];
    for n := 0 to |children|
      invariant body == EncodeAll(ts[..n])
    {
      EncodeAllMore(ts[..n], ts[n]);
      assert ts[..n] + [ts[n]] == ts[..n + 1];
      body := body + children[n];
    }
    assert ts[..|ts|] == ts;
  }

  /** A constructed value from its children: whole if it was chunked, else as it was. */
  method Build(id: byte, children: seq<bytes>, ghost ts: seq<Tlv>) returns (r: Option<bytes>)
    requires Encoded(children, ts) && ConstructedBit(id)
    ensures r == var t := Assemble(id, ts); if t.None? then None else Some(Encode(t.value))
  {
    forall i | 0 <= i < |ts| ensures children[i] != [] && (children[i][0] == 0x04 <==> OctetString(ts[i])) {
      OctetValueOf(ts[i]);
    }
    var universalOctets := id == 0x24;
    var contextOctets := ContextClass(id) && children != [] && forall i :: 0 <= i < |children| ==> children[i][0] == 0x04;
    if universalOctets || contextOctets {
      var body := JoinChunks(children, ts);
      if body.None? {
        return None;
      }
      assert id >= 32;
      return Some(Emit(if universalOctets then 0x04 else id - 32, body.value));
    }
    var body := Concatenate(children, ts);
    return Some(Emit(id, body));
  }

  ghost function Transcoded(input: bytes, depth: nat): Option<Read<bytes>> {
    var t := Taken(input, depth);
    if t.None? then None else Some(Read(Encode(t.value.value), t.value.rest))
  }

  /** One value: its DER, and the input after it. */
  method Transcode(input: bytes, depth: nat) returns (r: Option<Read<bytes>>)
    ensures r == Transcoded(input, depth)
    ensures r.Some? ==> |r.value.rest| < |input|
    decreases |input|, 2
  {
    hide ReadLen, Emit, Encoded, TakenAll, TakenUntilEnd, Assemble;
    if depth > MAX_DEPTH || input == [] || input[0] % 32 == 31 {
      return None;
    }
    var id := input[0];
    var len := ReadLen(input[1..]);
    if len.None? {
      return None;
    }
    var after := len.value.rest;
    if !ConstructedBit(id) {
      if len.value.value.None? || len.value.value.value > |after| {
        return None;
      }
      var n := len.value.value.value;
      return Some(Read(Emit(id, after[..n]), after[n..]));
    }
    if len.value.value.Some? {
      var n := len.value.value.value;
      if n > |after| {
        return None;
      }
      var children, ts := TranscodeRegion(after[..n], depth + 1);
      DefiniteTaken(input, depth);
      if children.None? {
        return None;
      }
      var body := Build(id, children.value, ts);
      if body.None? {
        return None;
      }
      return Some(Read(body.value, after[n..]));
    } else {
      var children, ts := TranscodeUntilEnd(after, depth + 1);
      IndefiniteTaken(input, depth);
      if children.None? {
        return None;
      }
      var body := Build(id, children.value.value, ts);
      if body.None? {
        return None;
      }
      return Some(Read(body.value, children.value.rest));
    }
  }

  lemma DefiniteTaken(input: bytes, depth: nat)
    requires depth <= MAX_DEPTH && input != [] && LowTag(input[0]) && ConstructedBit(input[0])
    requires ReadLen(input[1..]).Some? && ReadLen(input[1..]).value.value.Some?
    requires ReadLen(input[1..]).value.value.value <= |ReadLen(input[1..]).value.rest|
    ensures var len := ReadLen(input[1..]).value;
            var ts := TakenAll(len.rest[..len.value.value], depth + 1);
            Taken(input, depth) ==
            if ts.None? then None
            else
              var t := Assemble(input[0], ts.value);
              if t.None? then None else Some(Read(t.value, len.rest[len.value.value..]))
  {
    hide ReadLen, ParseAll, Assemble, CollapseAll;
  }

  lemma IndefiniteTaken(input: bytes, depth: nat)
    requires depth <= MAX_DEPTH && input != [] && LowTag(input[0]) && ConstructedBit(input[0])
    requires ReadLen(input[1..]).Some? && ReadLen(input[1..]).value.value.None?
    ensures var ts := TakenUntilEnd(ReadLen(input[1..]).value.rest, depth + 1);
            Taken(input, depth) ==
            if ts.None? then None
            else
              var t := Assemble(input[0], ts.value.value);
              if t.None? then None else Some(Read(t.value, ts.value.rest))
  {
    hide ReadLen, ParseUntilEnd, Assemble, CollapseAll;
  }

  /** Children up to the end of a definite region. */
  method TranscodeRegion(whole: bytes, depth: nat) returns (r: Option<seq<bytes>>, ghost ts: seq<Tlv>)
    ensures r.Some? <==> TakenAll(whole, depth).Some?
    ensures r.Some? ==> TakenAll(whole, depth) == Some(ts) && Encoded(r.value, ts)
    decreases |whole|, 3
  {
    var region, children := whole, [];
    ts := [];
    AfterNothing(TakenAll(region, depth), None);
    while region != []
      invariant |region| <= |whole|
      invariant Encoded(children, ts)
      invariant TakenAll(whole, depth) == After(ts, TakenAll(region, depth))
      decreases |region|
    {
      TakenAllStep(region, depth);
      var child := Transcode(region, depth);
      if child.None? {
        return None, ts;
      }
      TakenNormal(region, depth);
      AfterOneMore(ts, Taken(region, depth).value.value, TakenAll(child.value.rest, depth), None);
      ts := ts + [Taken(region, depth).value.value];
      children, region := children + [child.value.value], child.value.rest;
    }
    AfterAll(ts);
    return Some(children), ts;
  }

  /** Children up to the end-of-contents octets, and the input after those. */
  method TranscodeUntilEnd(whole: bytes, depth: nat) returns (r: Option<Read<seq<bytes>>>, ghost ts: seq<Tlv>)
    ensures r.Some? <==> TakenUntilEnd(whole, depth).Some?
    ensures r.Some? ==> TakenUntilEnd(whole, depth) == Some(Read(ts, r.value.rest)) && Encoded(r.value.value, ts)
    ensures r.Some? ==> |r.value.rest| < |whole|
    decreases |whole|, 3
  {
    var region, children := whole, [];
    ts := [];
    AfterNothing(None, TakenUntilEnd(region, depth));
    while !EndOfContents(region)
      invariant |region| <= |whole|
      invariant Encoded(children, ts)
      invariant TakenUntilEnd(whole, depth) == AfterRead(ts, TakenUntilEnd(region, depth))
      decreases |region|
    {
      TakenUntilStep(region, depth);
      var child := Transcode(region, depth);
      if child.None? {
        return None, ts;
      }
      TakenNormal(region, depth);
      AfterOneMore(ts, Taken(region, depth).value.value, None, TakenUntilEnd(child.value.rest, depth));
      ts := ts + [Taken(region, depth).value.value];
      children, region := children + [child.value.value], child.value.rest;
    }
    AfterAll(ts);
    return Some(Read(children, region[2..])), ts;
  }

  /** A whole value, with nothing after it. */
  method TranscodeToDer(input: bytes) returns (r: Option<bytes>)
    ensures r == ToDer(input)
  {
    var out := Transcode(input, 0);
    if out.None? || out.value.rest != [] {
      return None;
    }
    return Some(out.value.value);
  }
}
