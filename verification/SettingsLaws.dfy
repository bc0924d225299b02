/** What a guest file has to be for its settings to be read, said of its octets and lines. */
module SettingsLaws {
  import opened Wrappers
  import opened Texts
  import opened TextLaws
  import opened Utf8
  import opened Settings
  import SettingsRoundTrip

  // ---- lengths ------------------------------------------------------------

  /** Seven bits of each octet, least significant first. */
  function SevenBits(d: bytes): nat {
    if d == [] then 0 else d[0] % 128 + 128 * SevenBits(d[1..])
  }

  /** A length: at most five octets, of which the last alone is below 128. It need not be the shortest. */
  predicate IsLeb(d: bytes, most: nat, n: nat) {
    && 1 <= |d| <= most && d[|d| - 1] < 128 && SevenBits(d) == n
    && forall i :: 0 <= i < |d| - 1 ==> d[i] >= 128
  }

  /** What is read at a place is what stands there as a length. */
  ghost predicate LebAt(b: bytes, at: nat, most: nat, leb: Leb) {
    at < leb.next <= |b| && IsLeb(b[at..leb.next], most, leb.value)
  }

  lemma Parts(low: nat, high: nat)
    requires low < 128
    ensures (low + 128 * high) / 128 == high && (low + 128 * high) % 128 == low
  {
  }

  lemma LastOctet(b: bytes, at: nat, most: nat, leb: Leb)
    requires most > 0 && at < |b| && b[at] < 128
    ensures LebAt(b, at, most, leb) <==> leb == Leb(b[at], at + 1)
  {
    assert b[at..at + 1] == [b[at]] && [b[at]][1..] == [];
    assert SevenBits([b[at]]) == b[at] % 128 + 128 * SevenBits([]) == b[at];
    if at < leb.next <= |b| {
      assert b[at..leb.next][0] == b[at];
    }
  }

  lemma MoreOctets(b: bytes, at: nat, most: nat, leb: Leb)
    requires most > 0 && at < |b| && b[at] >= 128
    ensures LebAt(b, at, most, leb) <==>
              LebAt(b, at + 1, most - 1, Leb(leb.value / 128, leb.next)) && leb.value % 128 == b[at] - 128
  {
    if at < leb.next <= |b| {
      var d := b[at..leb.next];
      assert d[0] == b[at];
      if at + 1 < leb.next {
        var e := b[at + 1..leb.next];
        assert d[1..] == e && d[|d| - 1] == e[|e| - 1];
        assert forall i :: 0 <= i < |e| ==> e[i] == d[i + 1];
        assert forall i :: 0 < i < |d| ==> d[i] == e[i - 1];
        Parts(b[at] - 128, SevenBits(e));
        assert SevenBits(d) == b[at] - 128 + 128 * SevenBits(e);
      }
    }
  }

  lemma {:induction false} LebExactly(b: bytes, at: nat, most: nat, leb: Leb)
    ensures ReadLeb(b, at, most) == Some(leb) <==> LebAt(b, at, most, leb)
    decreases most
  {
    hide LebAt;
    if most == 0 || at >= |b| {
      NoOctets(b, at, most, leb);
    } else if b[at] < 128 {
      LastOctet(b, at, most, leb);
    } else {
      MoreOctets(b, at, most, leb);
      LebExactly(b, at + 1, most - 1, Leb(leb.value / 128, leb.next));
      var more := ReadLeb(b, at + 1, most - 1);
      if more.Some? {
        Parts(b[at] - 128, more.value.value);
      }
    }
  }

  lemma NoOctets(b: bytes, at: nat, most: nat, leb: Leb)
    requires most == 0 || at >= |b|
    ensures !LebAt(b, at, most, leb)
  {
  }

  // ---- sections -----------------------------------------------------------

  /** A piece with its length in front. */
  ghost predicate Measured(b: bytes, piece: bytes, rest: bytes) {
    exists d :: IsLeb(d, 5, |piece|) && b == d + piece + rest
  }

  /** A custom section of this name, and what it holds. */
  ghost predicate CustomIs(body: bytes, name: bytes, data: bytes) {
    Measured(body, name, data)
  }

  /** What a section read comes to, by its id and body. */
  ghost predicate SectionIs(id: byte, body: bytes, carried: Option<bytes>) {
    if id != 0 then carried.None?
    else exists name, data :: CustomIs(body, name, data)
           && carried == if name == Encode("enclave-guest-env") then Some(data) else None
  }

  /** The section that begins here and ends there. */
  ghost predicate SectionAt(c: bytes, at: nat, section: Section) {
    && at < section.end <= |c|
    && exists body :: Measured(c[at + 1..section.end], body, []) && SectionIs(c[at], body, section.carried)
  }

  lemma SubSlice(b: bytes, at: nat, to: nat, i: nat, j: nat)
    requires at <= to <= |b| && i <= j <= to - at
    ensures b[at..to][i..j] == b[at + i..at + j]
  {
    var s, t := b[at..to][i..j], b[at + i..at + j];
    assert |s| == |t|;
    forall k | 0 <= k < |s| ensures s[k] == t[k] {
      assert s[k] == b[at..to][i + k] == b[at + (i + k)];
    }
  }

  lemma Pieces(b: bytes, at: nat, to: nat, d: bytes, piece: bytes, rest: bytes)
    requires at <= to <= |b| && b[at..to] == d + piece + rest
    ensures at + |d| + |piece| + |rest| == to
    ensures b[at..at + |d|] == d && b[at + |d|..at + |d| + |piece|] == piece && b[at + |d| + |piece|..to] == rest
  {
    var s := d + piece + rest;
    assert |s| == to - at;
    assert s[0..|d|] == d && s[|d|..|d| + |piece|] == piece && s[|d| + |piece|..|s|] == rest;
    SubSlice(b, at, to, 0, |d|);
    SubSlice(b, at, to, |d|, |d| + |piece|);
    SubSlice(b, at, to, |d| + |piece|, |s|);
  }

  /** The piece read at a place: as long as the length before it says, and what is left behind it. */
  predicate PieceAt(b: bytes, at: nat, to: nat, piece: bytes, rest: bytes)
    requires at <= to <= |b|
  {
    var leb := ReadLeb(b, at, 5);
    && leb.Some? && leb.value.next + leb.value.value <= to
    && piece == b[leb.value.next..leb.value.next + leb.value.value]
    && rest == b[leb.value.next + leb.value.value..to]
  }

  lemma MeasuredRead(b: bytes, at: nat, to: nat, d: bytes, piece: bytes, rest: bytes)
    requires at <= to <= |b| && IsLeb(d, 5, |piece|) && b[at..to] == d + piece + rest
    ensures PieceAt(b, at, to, piece, rest)
  {
    Pieces(b, at, to, d, piece, rest);
    LebExactly(b, at, 5, Leb(|piece|, at + |d|));
    hide ReadLeb, IsLeb;
  }

  lemma ReadMeasured(b: bytes, at: nat, to: nat, piece: bytes, rest: bytes)
    requires at <= to <= |b| && PieceAt(b, at, to, piece, rest)
    ensures Measured(b[at..to], piece, rest)
  {
    var leb := ReadLeb(b, at, 5).value;
    LebExactly(b, at, 5, leb);
    hide ReadLeb, IsLeb;
    var d := b[at..leb.next];
    assert b[at..to] == d + piece + rest;
    assert IsLeb(d, 5, |piece|);
  }

  /** A measured piece stands where its length says. */
  lemma MeasuredAt(b: bytes, at: nat, to: nat, piece: bytes, rest: bytes)
    requires at <= to <= |b|
    ensures Measured(b[at..to], piece, rest) <==> PieceAt(b, at, to, piece, rest)
  {
    if d :| IsLeb(d, 5, |piece|) && b[at..to] == d + piece + rest {
      MeasuredRead(b, at, to, d, piece, rest);
    }
    hide IsLeb;
    if PieceAt(b, at, to, piece, rest) {
      ReadMeasured(b, at, to, piece, rest);
    }
  }

  ghost predicate CustomPiece(c: bytes, from: nat, to: nat, carried: Option<bytes>, name: bytes, data: bytes)
    requires from <= to <= |c|
  {
    PieceAt(c, from, to, name, data) && carried == if name == Encode("enclave-guest-env") then Some(data) else None
  }

  lemma CustomRead(c: bytes, from: nat, to: nat, carried: Option<bytes>)
    requires from <= to <= |c|
    ensures SectionIs(0, c[from..to], carried) <==> exists name, data :: CustomPiece(c, from, to, carried, name, data)
  {
    hide Encode, ReadLeb, PieceAt, Measured;
    if name, data :| CustomIs(c[from..to], name, data)
                     && carried == if name == Encode("enclave-guest-env") then Some(data) else None {
      MeasuredAt(c, from, to, name, data);
      assert CustomPiece(c, from, to, carried, name, data);
    }
    if name, data :| CustomPiece(c, from, to, carried, name, data) {
      MeasuredAt(c, from, to, name, data);
      assert CustomIs(c[from..to], name, data);
    }
  }

  lemma SectionParts(c: bytes, at: nat, section: Section) returns (from: nat)
    requires at < |c| && ReadSection(c, at) == Ok(section)
    ensures at < from <= section.end <= |c| && PieceAt(c, at + 1, section.end, c[from..section.end], [])
    ensures c[at] != 0 ==> section.carried.None?
    ensures c[at] == 0 ==>
              var name := ReadLeb(c, from, 5);
              && name.Some? && name.value.next + name.value.value <= section.end
              && CustomPiece(c, from, section.end, section.carried,
                             c[name.value.next..name.value.next + name.value.value], c[name.value.next + name.value.value..section.end])
  {
    hide Encode, ReadLeb;
    from := ReadLeb(c, at + 1, 5).value.next;
  }

  lemma SectionRead(c: bytes, at: nat, section: Section)
    requires at < |c| && ReadSection(c, at) == Ok(section)
    ensures SectionAt(c, at, section)
  {
    hide Encode, ReadLeb, PieceAt, Measured, ReadSection, CustomPiece, CustomIs, SectionIs;
    var from := SectionParts(c, at, section);
    var body := c[from..section.end];
    MeasuredAt(c, at + 1, section.end, body, []);
    CustomRead(c, from, section.end, section.carried);
    OtherSection(c[at], body, section.carried);
    assert SectionIs(c[at], body, section.carried);
  }

  lemma SectionStands(c: bytes, at: nat, section: Section, body: bytes)
    requires at < section.end <= |c|
    requires Measured(c[at + 1..section.end], body, []) && SectionIs(c[at], body, section.carried)
    ensures ReadSection(c, at) == Ok(section)
  {
    hide Encode, ReadLeb, Measured, SectionIs;
    MeasuredAt(c, at + 1, section.end, body, []);
    var size := ReadLeb(c, at + 1, 5).value;
    var from := size.next;
    assert from + size.value == section.end && body == c[from..section.end];
    if c[at] == 0 {
      CustomRead(c, from, section.end, section.carried);
      var name, data :| CustomPiece(c, from, section.end, section.carried, name, data);
    } else {
      OtherSection(c[at], body, section.carried);
    }
  }

  /** A section is read as what stands there: an id, a measured body, and in a custom one a measured name. */
  lemma SectionExactly(c: bytes, at: nat, section: Section)
    requires at < |c|
    ensures ReadSection(c, at) == Ok(section) <==> SectionAt(c, at, section)
  {
    hide ReadSection, SectionIs, Measured;
    if ReadSection(c, at) == Ok(section) {
      SectionRead(c, at, section);
    }
    if at < section.end <= |c| {
      if body :| Measured(c[at + 1..section.end], body, []) && SectionIs(c[at], body, section.carried) {
        SectionStands(c, at, section, body);
      }
    }
  }

  lemma OtherSection(id: byte, body: bytes, carried: Option<bytes>)
    ensures id != 0 ==> (SectionIs(id, body, carried) <==> carried.None?)
  {
  }

  // ---- the walk -----------------------------------------------------------

  /** Sections one behind the other to the end of the file. */
  ghost predicate Tiles(c: bytes, at: nat, sections: seq<Section>)
    decreases |sections|
  {
    if sections == [] then at == |c|
    else at < |c| && SectionAt(c, at, sections[0]) && Tiles(c, sections[0].end, sections[1..])
  }

  /** What those that carry settings carry, in order. */
  function Carried(sections: seq<Section>): seq<bytes> {
    if sections == [] then []
    else (if sections[0].carried.Some? then [sections[0].carried.value] else []) + Carried(sections[1..])
  }

  function AsSeq(found: Option<bytes>): seq<bytes> {
    if found.None? then [] else [found.value]
  }

  /** The walk from here on comes to this. */
  ghost predicate WalkIs(c: bytes, at: nat, found: Option<bytes>, result: Option<bytes>, sections: seq<Section>) {
    Tiles(c, at, sections) && AsSeq(found) + Carried(sections) == AsSeq(result)
  }

  lemma WalkOn(c: bytes, at: nat, found: Option<bytes>, result: Option<bytes>, first: Section, rest: seq<Section>)
    requires at < |c| && SectionAt(c, at, first)
    requires WalkIs(c, first.end, if first.carried.None? then found else first.carried, result, rest)
    requires first.carried.None? || found.None?
    ensures WalkIs(c, at, found, result, [first] + rest)
  {
    hide SectionAt;
    assert ([first] + rest)[1..] == rest;
    if found.None? {
      assert [] + Carried([first] + rest) == Carried([first] + rest);
    } else {
      assert [] + Carried(rest) == Carried(rest);
    }
  }

  lemma WalkBack(c: bytes, at: nat, found: Option<bytes>, result: Option<bytes>, sections: seq<Section>)
    requires WalkIs(c, at, found, result, sections) && sections != []
    ensures at < |c| && SectionAt(c, at, sections[0]) && (sections[0].carried.None? || found.None?)
    ensures WalkIs(c, sections[0].end, if sections[0].carried.None? then found else sections[0].carried, result, sections[1..])
  {
    hide SectionAt;
    var first := sections[0];
    assert |AsSeq(result)| <= 1;
    if first.carried.None? {
      assert [] + Carried(sections[1..]) == Carried(sections[1..]);
    } else {
      assert AsSeq(found) + ([first.carried.value] + Carried(sections[1..])) == AsSeq(result);
      assert |AsSeq(found)| == 0;
    }
  }

  lemma {:induction false} ScanWalks(c: bytes, at: nat, found: Option<bytes>) returns (sections: seq<Section>)
    requires at <= |c| && Scan(c, at, found).Ok?
    ensures WalkIs(c, at, found, Scan(c, at, found).value, sections)
    decreases |c| - at
  {
    hide ReadSection, SectionAt, WalkIs;
    if at >= |c| {
      sections := [];
      NoSections(c, at, found);
    } else {
      var first := ReadSection(c, at).value;
      SectionExactly(c, at, first);
      var next := if first.carried.None? then found else first.carried;
      var rest := ScanWalks(c, first.end, next);
      sections := [first] + rest;
      WalkOn(c, at, found, Scan(c, at, found).value, first, rest);
    }
  }

  lemma NoSections(c: bytes, at: nat, found: Option<bytes>)
    requires at == |c|
    ensures forall result, sections :: WalkIs(c, at, found, result, sections) <==> sections == [] && result == found
  {
    assert AsSeq(found) + Carried([]) == AsSeq(found);
  }

  lemma {:induction false} WalkScans(c: bytes, at: nat, found: Option<bytes>, result: Option<bytes>, sections: seq<Section>)
    requires at <= |c| && WalkIs(c, at, found, result, sections)
    ensures Scan(c, at, found) == Ok(result)
    decreases |sections|
  {
    hide ReadSection, SectionAt, WalkIs;
    if sections == [] {
      NothingLeft(c, at, found, result);
    } else {
      var first := sections[0];
      WalkBack(c, at, found, result, sections);
      SectionExactly(c, at, first);
      WalkScans(c, first.end, if first.carried.None? then found else first.carried, result, sections[1..]);
    }
  }

  lemma NothingLeft(c: bytes, at: nat, found: Option<bytes>, result: Option<bytes>)
    requires WalkIs(c, at, found, result, [])
    ensures at == |c| && result == found
  {
    assert AsSeq(found) + Carried([]) == AsSeq(found);
  }

  // ---- lines --------------------------------------------------------------

  /** LF and CRLF end a line; a last line needs no end and keeps a carriage return of its own. */
  lemma LinesRead(line: string, rest: string)
    requires '\n' !in line
    ensures line == "" || line[|line| - 1] != '\r' ==> TextLines(line + "\n" + rest) == [line] + TextLines(rest)
    ensures TextLines(line + "\r\n" + rest) == [line] + TextLines(rest)
    ensures TextLines(line) == if line == "" then [] else [line]
  {
    hide TextLines;
    SettingsRoundTrip.TextLinesFirst(line, rest);
    SettingsRoundTrip.TextLinesFirst(line + "\r", rest);
    assert line + "\r\n" + rest == line + "\r" + "\n" + rest;
    assert WithoutCr(line + "\r") == line;
    SettingsRoundTrip.WholeLine(line);
  }

  function NonBlank(lines: seq<string>): seq<string> {
    if lines == [] then []
    else NonBlank(lines[..|lines| - 1]) + (if lines[|lines| - 1] == "" then [] else [lines[|lines| - 1]])
  }

  ghost predicate Named(settings: seq<Setting>) {
    && (forall i :: 0 <= i < |settings| ==> ValidName(settings[i].name))
    && forall i, j :: 0 <= i < j < |settings| ==> settings[i].name != settings[j].name
  }

  /** These lines are those settings, in order, blank ones passed over. */
  ghost predicate Spell(lines: seq<string>, settings: seq<Setting>) {
    NonBlank(lines) == SettingsRoundTrip.LinesFor(settings) && Named(settings)
  }

  lemma AddLineExactly(before: seq<Setting>, line: string, after: seq<Setting>)
    requires line != ""
    ensures AddLine(before, line) == Ok(after) <==>
              && after != [] && after[..|after| - 1] == before
              && var s := after[|after| - 1];
                 line == SettingsRoundTrip.LineOf(s) && ValidName(s.name) && s.name !in Names(before)
  {
    var at := IndexOf(line, '=');
    if at.Some? {
      var name, value := line[..at.value], line[at.value + 1..];
      assert line == name + "=" + value;
    }
    if after != [] {
      var s := after[|after| - 1];
      assert after == after[..|after| - 1] + [s];
      if ValidName(s.name) {
        SettingsRoundTrip.NameHasNoEquals(s.name, s.value);
        var full := s.name + "=" + s.value;
        assert full[..|s.name|] == s.name && full[|s.name| + 1..] == s.value;
      }
    }
  }

  lemma SpellMore(front: seq<string>, line: string, after: seq<Setting>)
    requires line != ""
    ensures Spell(front + [line], after) <==>
              && after != [] && Spell(front, after[..|after| - 1])
              && var s := after[|after| - 1];
                 line == SettingsRoundTrip.LineOf(s) && ValidName(s.name) && s.name !in Names(after[..|after| - 1])
  {
    var lines := front + [line];
    assert lines[..|lines| - 1] == front && NonBlank(lines) == NonBlank(front) + [line];
    if after != [] {
      var most, s := after[..|after| - 1], after[|after| - 1];
      var a, b := SettingsRoundTrip.LinesFor(after), SettingsRoundTrip.LinesFor(most);
      assert a == b + [SettingsRoundTrip.LineOf(s)];
      if NonBlank(lines) == a {
        assert NonBlank(front) == NonBlank(lines)[..|a| - 1] == b && line == a[|a| - 1];
      }
      hide NonBlank, SettingsRoundTrip.LineOf;
      assert after == most + [s];
      assert Named(after) <==> Named(most) && ValidName(s.name) && s.name !in Names(most);
    }
  }

  lemma {:induction false} LinesExactly(lines: seq<string>, settings: seq<Setting>)
    ensures ParseLines(lines) == Ok(settings) <==> Spell(lines, settings)
    decreases |lines|
  {
    if lines == [] {
      assert SettingsRoundTrip.LinesFor(settings) == [] <==> settings == [];
    } else {
      var front, line := lines[..|lines| - 1], lines[|lines| - 1];
      assert lines == front + [line];
      var before := ParseLines(front);
      hide Spell;
      if line == "" {
        LinesExactly(front, settings);
        BlankLine(front, settings);
      } else {
        SpellMore(front, line, settings);
        if settings != [] {
          LinesExactly(front, settings[..|settings| - 1]);
        }
        if before.Ok? {
          AddLineExactly(before.value, line, settings);
        }
      }
    }
  }

  lemma BlankLine(front: seq<string>, settings: seq<Setting>)
    ensures Spell(front + [""], settings) <==> Spell(front, settings)
  {
    var lines := front + [""];
    assert lines[..|lines| - 1] == front;
    assert NonBlank(front) + [] == NonBlank(front);
  }

  // ---- the whole file -----------------------------------------------------

  /** A section's octets are text whose lines are these settings. */
  ghost predicate Holds(data: bytes, settings: seq<Setting>) {
    exists text :: data == Encode(text) && Spell(TextLines(text), settings)
  }

  lemma SectionHolds(data: bytes, settings: seq<Setting>)
    ensures ParseSection(data) == Ok(settings) <==> Holds(data, settings)
  {
    var text := Text(data);
    hide Spell, ParseLines, TextLines, Encode, Text;
    if text.Some? {
      TextExactly(data, text.value);
      LinesExactly(TextLines(text.value), settings);
    }
    if t :| data == Encode(t) && Spell(TextLines(t), settings) {
      TextExactly(data, t);
    }
  }

  /** A guest file is read exactly if it is a wasm file made of whole sections, one of which at most is the custom section
      of that name, and that one's text is lines of settings with valid names, each once; and these are the settings. */
  ghost predicate GuestFile(c: bytes, settings: seq<Setting>, sections: seq<Section>) {
    && |c| >= 8 && c[..4] == [0, 0x61, 0x73, 0x6d]
    && Tiles(c, 8, sections)
    && match |Carried(sections)|
       case 0 => settings == []
       case 1 => Holds(Carried(sections)[0], settings)
       case _ => false
  }

  lemma SettingsExactly(c: bytes, settings: seq<Setting>)
    ensures FromGuest(c) == Ok(settings) <==> exists sections :: GuestFile(c, settings, sections)
  {
    hide Scan, ParseSection, Tiles, Holds;
    if FromGuest(c) == Ok(settings) {
      var sections := ScanWalks(c, 8, None);
      var result := Scan(c, 8, None).value;
      assert [] + Carried(sections) == Carried(sections);
      if result.Some? {
        SectionHolds(result.value, settings);
      }
      assert GuestFile(c, settings, sections);
    }
    if sections :| GuestFile(c, settings, sections) {
      var carried := Carried(sections);
      var result := if carried == [] then None else Some(carried[0]);
      assert [] + carried == carried;
      assert AsSeq(result) == carried;
      WalkScans(c, 8, None, result, sections);
      if result.Some? {
        SectionHolds(result.value, settings);
      }
    }
  }
}
