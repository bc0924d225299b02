/** Settings written into a guest file are read back as they were, exactly when they can be written as lines. */
module SettingsRoundTrip {
  import opened Wrappers
  import opened Texts
  import opened Utf8
  import opened Settings

  // ---- writing ------------------------------------------------------------

  function LineOf(s: Setting): string {
    s.name + "=" + s.value
  }

  function Render(settings: seq<Setting>): string {
    if settings == [] then "" else Render(settings[..|settings| - 1]) + LineOf(settings[|settings| - 1]) + "\n"
  }

  function Body(settings: seq<Setting>): bytes {
    WriteLeb(|Encode(SECTION)|) + Encode(SECTION) + Encode(Render(settings))
  }

  function WithSettings(c: bytes, settings: seq<Setting>): bytes {
    c + [0] + WriteLeb(|Body(settings)|) + Body(settings)
  }

  method AppendSettings(c: bytes, settings: seq<Setting>) returns (out: bytes)
    ensures out == WithSettings(c, settings)
  {
    var data := "";
    for n := 0 to |settings|
      invariant data == Render(settings[..n])
    {
      assert settings[..n + 1][..n] == settings[..n];
      data := data + LineOf(settings[n]) + "\n";
    }
    assert settings[..|settings|] == settings;
    var nameLength := WriteLength(|Encode(SECTION)|);
    var body := nameLength + Encode(SECTION) + Encode(data);
    var length := WriteLength(|body|);
    out := c + [0] + length + body;
  }

  // ---- the section is found -----------------------------------------------

  lemma SliceKept(c: bytes, more: bytes, from: nat, to: nat)
    requires from <= to <= |c|
    ensures (c + more)[from..to] == c[from..to]
  {
  }

  lemma SectionKept(c: bytes, more: bytes, at: nat)
    requires at < |c| && ReadSection(c, at).Ok?
    ensures ReadSection(c + more, at) == ReadSection(c, at)
  {
    hide ReadLeb, Encode;
    var b := c + more;
    assert b[at] == c[at] && |b| >= |c|;
    LebKept(c, more, at + 1, LEB_OCTETS);
    var size := ReadLeb(c, at + 1, LEB_OCTETS).value;
    if c[at] == 0 {
      LebKept(c, more, size.next, LEB_OCTETS);
      var name := ReadLeb(c, size.next, LEB_OCTETS).value;
      SliceKept(c, more, name.next, name.next + name.value);
      SliceKept(c, more, name.next + name.value, size.next + size.value);
    }
  }

  /** Sections already read are read the same when more follows. */
  lemma {:induction false} ScanKept(c: bytes, more: bytes, at: nat, found: Option<bytes>)
    requires at <= |c| && Scan(c, at, found).Ok?
    ensures Scan(c + more, at, found) == Scan(c + more, |c|, Scan(c, at, found).value)
    decreases |c| - at
  {
    hide ReadSection;
    if at < |c| {
      SectionKept(c, more, at);
      var section := ReadSection(c, at).value;
      ScanKept(c, more, section.end, if section.carried.None? then found else section.carried);
    }
  }

  const MOST: nat := Power128(LEB_OCTETS)

  /** The section name is short enough to be read. */
  lemma NameReads(before: bytes, after: bytes)
    ensures var n := |Encode(SECTION)|;
            ReadLeb(before + WriteLeb(n) + after, |before|, LEB_OCTETS) == Some(Leb(n, |before| + |WriteLeb(n)|))
  {
    NameLength();
    LebReads(|Encode(SECTION)|, LEB_OCTETS, before, after);
    PowerGrows(LEB_OCTETS);
  }

  lemma {:induction false} AsciiLength(s: string)
    requires forall i :: 0 <= i < |s| ==> s[i] as int < 0x80
    ensures |Encode(s)| == |s|
  {
    if s != "" {
      AsciiLength(s[1..]);
    }
  }

  lemma NameLength()
    ensures |Encode(SECTION)| == 17
  {
    hide Encode;
    AsciiLength(SECTION);
  }

  lemma SectionLast(c: bytes, settings: seq<Setting>)
    ensures var b, data := WithSettings(c, settings), Encode(Render(settings));
            |c| < |b| && ReadSection(b, |c|) ==
            if |Body(settings)| >= MOST then Err(Truncated) else Ok(Section(|b|, Some(data)))
  {
    hide Encode, WriteLeb, ReadLeb;
    var b, body, data := WithSettings(c, settings), Body(settings), Encode(Render(settings));
    var name, length := Encode(SECTION), WriteLeb(|Body(settings)|);
    LebReads(|body|, LEB_OCTETS, c + [0], body);
    assert b == (c + [0]) + length + body;
    assert b[|c|] == 0;
    if |body| < MOST {
      var front := c + [0] + length;
      NameReads(front, name + data);
      assert b == front + WriteLeb(|name|) + (name + data);
      assert b == (front + WriteLeb(|name|)) + name + data;
      NameAndData(front + WriteLeb(|name|), name, data);
    }
  }

  /** The appended section, met after everything before it. */
  lemma ScanLast(c: bytes, settings: seq<Setting>, found: Option<bytes>)
    ensures Scan(WithSettings(c, settings), |c|, found) ==
            if |Body(settings)| >= MOST then Err(Truncated)
            else if found.Some? then Err(TwoSections)
            else Ok(Some(Encode(Render(settings))))
  {
    SectionLast(c, settings);
    hide ReadSection, Encode, Body, WithSettings;
    var b := WithSettings(c, settings);
    assert Scan(b, |b|, Some(Encode(Render(settings)))) == Ok(Some(Encode(Render(settings))));
  }

  lemma NameAndData(front: bytes, name: bytes, data: bytes)
    ensures var b := front + name + data;
            b[|front|..|front| + |name|] == name && b[|front| + |name|..|b|] == data
  {
  }

  // ---- the lines ----------------------------------------------------------

  predicate Clean(s: string) {
    '\n' !in s && !(s != "" && s[|s| - 1] == '\r')
  }

  /** Settings that can be written as lines: variable names, each once, and values that end where their line does. */
  ghost predicate Writable(settings: seq<Setting>) {
    && (forall i :: 0 <= i < |settings| ==> ValidName(settings[i].name) && Clean(settings[i].value))
    && forall i, j :: 0 <= i < j < |settings| ==> settings[i].name != settings[j].name
  }

  function LinesFor(settings: seq<Setting>): seq<string> {
    seq(|settings|, i requires 0 <= i < |settings| => LineOf(settings[i]))
  }

  lemma {:induction false} LineEnds(line: string, rest: string)
    requires '\n' !in line
    ensures LineLength(line + "\n" + rest) == |line|
  {
    if line != "" {
      LineEnds(line[1..], rest);
      assert (line + "\n" + rest)[1..] == line[1..] + "\n" + rest;
    }
  }

  lemma TextLinesFirst(line: string, rest: string)
    requires '\n' !in line
    ensures TextLines(line + "\n" + rest) == [WithoutCr(line)] + TextLines(rest)
  {
    LineEnds(line, rest);
    var s := line + "\n" + rest;
    assert s[..|line|] == line && s[|line| + 1..] == rest;
  }

  lemma {:induction false} NoLineEnds(line: string)
    requires '\n' !in line
    ensures LineLength(line) == |line|
  {
    if line != "" {
      NoLineEnds(line[1..]);
    }
  }

  lemma WholeLine(line: string)
    requires '\n' !in line
    ensures TextLines(line) == if line == "" then [] else [line]
  {
    NoLineEnds(line);
  }

  lemma Behind(first: string, rest: string, line: string)
    ensures first + "\n" + rest + line + "\n" == first + "\n" + (rest + line + "\n")
  {
  }

  lemma Grouped(first: string, lines: seq<string>, line: string)
    ensures [first] + (lines + [line]) == [first] + lines + [line]
  {
  }

  ghost predicate Ended(s: string) {
    s == "" || s[|s| - 1] == '\n'
  }

  lemma Halves(s: string, n: nat)
    requires n < |s| && s[n] == '\n' && Ended(s)
    ensures s == s[..n] + "\n" + s[n + 1..] && Ended(s[n + 1..])
  {
  }

  /** A terminated text begins with a line. */
  lemma TakeLine(s: string) returns (first: string, rest: string)
    requires Ended(s) && s != ""
    ensures s == first + "\n" + rest && '\n' !in first && Ended(rest)
    ensures TextLines(s) == [WithoutCr(first)] + TextLines(rest)
  {
    hide TextLines;
    var n := LineLength(s);
    FirstLine(s);
    assert n < |s|;
    hide LineLength;
    Halves(s, n);
    first, rest := s[..n], s[n + 1..];
    hide Ended;
    TextLinesFirst(first, rest);
  }

  lemma {:induction false} TextLinesMore(s: string, line: string)
    requires Ended(s) && Clean(line)
    ensures TextLines(s + line + "\n") == TextLines(s) + [line]
    decreases |s|
  {
    hide LineLength, TextLines;
    if s == "" {
      TextLinesFirst(line, "");
      NoLines();
      assert s + line + "\n" == line + "\n" + "";
    } else {
      var first, rest := TakeLine(s);
      hide Ended, Clean;
      Behind(first, rest, line);
      TextLinesFirst(first, rest + line + "\n");
      TextLinesMore(rest, line);
      Grouped(WithoutCr(first), TextLines(rest), line);
    }
  }

  lemma {:induction false} FirstLine(s: string)
    ensures '\n' !in s[..LineLength(s)]
    ensures LineLength(s) == |s| ==> '\n' !in s
  {
    if s != "" && s[0] != '\n' {
      FirstLine(s[1..]);
      assert s[..LineLength(s)] == [s[0]] + s[1..][..LineLength(s[1..])];
    }
  }

  lemma {:induction false} NameHasNoEquals(name: string, value: string)
    requires ValidName(name)
    ensures '\n' !in name && IndexOf(name + "=" + value, '=') == Some(|name|)
  {
    assert forall i :: 0 <= i < |name| ==> name[i] != '=' && name[i] != '\n';
    var line := name + "=" + value;
    assert line[|name|] == '=';
    assert forall i :: 0 <= i < |name| ==> line[i] == name[i];
  }

  lemma RenderEnds(settings: seq<Setting>)
    ensures Ended(Render(settings))
  {
  }

  lemma LineIsClean(s: Setting)
    requires ValidName(s.name) && Clean(s.value)
    ensures Clean(LineOf(s))
  {
  }

  lemma {:induction false} RenderedLines(settings: seq<Setting>)
    requires Writable(settings)
    ensures TextLines(Render(settings)) == LinesFor(settings)
  {
    hide TextLines;
    if settings != [] {
      var front, last := settings[..|settings| - 1], settings[|settings| - 1];
      RenderedLines(front);
      RenderEnds(front);
      LineIsClean(last);
      hide LineOf, Clean, ValidName;
      TextLinesMore(Render(front), LineOf(last));
      assert LinesFor(settings) == LinesFor(front) + [LineOf(last)];
    } else {
      NoLines();
    }
  }

  lemma NoLines()
    ensures TextLines("") == []
  {
  }

  lemma AddsLine(before: seq<Setting>, s: Setting)
    requires ValidName(s.name) && s.name !in Names(before)
    ensures AddLine(before, LineOf(s)) == Ok(before + [s])
  {
    NameHasNoEquals(s.name, s.value);
    var line := LineOf(s);
    assert line[..|s.name|] == s.name && line[|s.name| + 1..] == s.value;
    hide ValidName, Names;
  }

  lemma {:induction false} LinesParse(settings: seq<Setting>)
    requires Writable(settings)
    ensures ParseLines(LinesFor(settings)) == Ok(settings)
  {
    if settings != [] {
      var front, last := settings[..|settings| - 1], settings[|settings| - 1];
      LinesParse(front);
      assert LinesFor(settings)[..|settings| - 1] == LinesFor(front);
      assert last.name !in Names(front);
      hide Names, ValidName, AddLine, LineOf;
      AddsLine(front, last);
      assert settings == front + [last];
    }
  }

  // ---- and only then ------------------------------------------------------

  ghost predicate NamesOk(settings: seq<Setting>) {
    && (forall i :: 0 <= i < |settings| ==> ValidName(settings[i].name))
    && forall i, j :: 0 <= i < j < |settings| ==> settings[i].name != settings[j].name
  }

  /** Whatever is read has variable names, each once. */
  lemma {:induction false} ParsedNames(lines: seq<string>)
    requires ParseLines(lines).Ok?
    ensures NamesOk(ParseLines(lines).value)
  {
    if lines != [] {
      ParsedNames(lines[..|lines| - 1]);
      var before := ParseLines(lines[..|lines| - 1]).value;
      assert forall i :: 0 <= i < |before| ==> before[i].name in Names(before);
    }
  }

  ghost function Cost(lines: seq<string>): nat {
    if lines == [] then 0
    else
      var last := lines[|lines| - 1];
      Cost(lines[..|lines| - 1]) + if last == "" then 0 else |last| + 1
  }

  /** Written again, what was read is as long as the lines it was read from. */
  lemma AddedCost(before: seq<Setting>, line: string)
    requires AddLine(before, line).Ok? && line != ""
    ensures |Render(AddLine(before, line).value)| == |Render(before)| + |line| + 1
    ensures |AddLine(before, line).value| == |before| + 1 && AddLine(before, line).value[..|before|] == before
    ensures Clean(line) ==> Clean(AddLine(before, line).value[|before|].value)
  {
  }

  lemma {:induction false} ParsedCost(lines: seq<string>)
    requires ParseLines(lines).Ok?
    ensures |Render(ParseLines(lines).value)| == Cost(lines)
  {
    hide Render;
    if lines != [] {
      ParsedCost(lines[..|lines| - 1]);
      if lines[|lines| - 1] != "" {
        AddedCost(ParseLines(lines[..|lines| - 1]).value, lines[|lines| - 1]);
      }
      hide AddLine;
    } else {
      NothingRendered();
    }
  }

  lemma NothingRendered()
    ensures Render([]) == ""
  {
  }

  ghost predicate AllClean(lines: seq<string>) {
    forall i :: 0 <= i < |lines| ==> Clean(lines[i])
  }

  ghost predicate ValuesClean(settings: seq<Setting>) {
    forall i :: 0 <= i < |settings| ==> Clean(settings[i].value)
  }

  lemma {:induction false} ParsedClean(lines: seq<string>)
    requires ParseLines(lines).Ok? && AllClean(lines)
    ensures ValuesClean(ParseLines(lines).value)
  {
    hide Clean;
    if lines != [] {
      var front, line := lines[..|lines| - 1], lines[|lines| - 1];
      ParsedClean(front);
      if line != "" {
        var before := ParseLines(front).value;
        AddedCost(before, line);
        hide AddLine;
        var after := AddLine(before, line).value;
        assert forall i :: 0 <= i < |before| ==> after[i] == before[i];
      }
    }
  }

  lemma {:induction false} CostMore(first: string, lines: seq<string>)
    ensures Cost([first] + lines) == (if first == "" then 0 else |first| + 1) + Cost(lines)
  {
    if lines == [] {
      assert [first] + lines == [first] && [first][..0] == [];
    } else {
      CostMore(first, lines[..|lines| - 1]);
      assert ([first] + lines)[..|lines|] == [first] + lines[..|lines| - 1];
    }
  }

  /** Lines cost no more than the text they are in, and as much only if none was empty or lost a carriage return. */
  lemma {:induction false} TextCost(s: string)
    requires Ended(s)
    ensures Cost(TextLines(s)) <= |s|
    ensures Cost(TextLines(s)) == |s| ==> AllClean(TextLines(s))
    decreases |s|
  {
    if s == "" {
      NoLines();
    } else {
      hide TextLines, Cost, AllClean;
      var first, rest := TakeLine(s);
      TextCost(rest);
      CostMore(WithoutCr(first), TextLines(rest));
      if WithoutCr(first) == first {
        CleanMore(first, TextLines(rest));
      }
    }
  }

  lemma CleanMore(first: string, lines: seq<string>)
    requires '\n' !in first && WithoutCr(first) == first
    ensures AllClean(lines) ==> AllClean([first] + lines)
  {
  }

  lemma OnlyWritable(settings: seq<Setting>)
    requires ParseLines(TextLines(Render(settings))) == Ok(settings)
    ensures Writable(settings)
  {
    var lines := TextLines(Render(settings));
    ParsedNames(lines);
    ParsedCost(lines);
    hide TextLines, Render, ParseLines, Cost, Clean;
    RenderEnds(settings);
    TextCost(Render(settings));
    ParsedClean(lines);
  }

  // ---- the round trip -----------------------------------------------------

  lemma StillWasm(c: bytes, more: bytes)
    requires IsWasm(c)
    ensures IsWasm(c + more)
  {
    assert (c + more)[..4] == c[..4];
  }

  lemma AppendedTo(c: bytes, settings: seq<Setting>) returns (extra: bytes)
    ensures WithSettings(c, settings) == c + extra
  {
    hide WriteLeb, Body;
    extra := [0] + WriteLeb(|Body(settings)|) + Body(settings);
  }

  lemma Appended(c: bytes, settings: seq<Setting>)
    requires IsWasm(c) && Scan(c, 8, None).Ok?
    ensures IsWasm(WithSettings(c, settings))
    ensures Scan(WithSettings(c, settings), 8, None) ==
            if |Body(settings)| >= MOST then Err(Truncated)
            else if Scan(c, 8, None).value.Some? then Err(TwoSections)
            else Ok(Some(Encode(Render(settings))))
  {
    hide Scan, Body, Encode, Render, WithSettings, Power128;
    var extra := AppendedTo(c, settings);
    StillWasm(c, extra);
    ScanKept(c, extra, 8, None);
    ScanLast(c, settings, Scan(c, 8, None).value);
  }

  /** Appended to a well-formed file that has none, settings are read back as they were exactly when they can be
      written as lines and their section's length fits five octets. */
  lemma ReadBackExactly(c: bytes, settings: seq<Setting>)
    requires IsWasm(c) && Scan(c, 8, None) == Ok(None)
    ensures FromGuest(WithSettings(c, settings)) == Ok(settings) <==> Writable(settings) && |Body(settings)| < MOST
  {
    Appended(c, settings);
    EncodedReads(Render(settings));
    hide Scan, Encode, Body, TextLines, ParseLines, WithSettings, Writable, Render, LinesFor, IsWasm, Text;
    if Writable(settings) {
      RenderedLines(settings);
      LinesParse(settings);
    }
    if ParseLines(TextLines(Render(settings))) == Ok(settings) {
      OnlyWritable(settings);
    }
  }

  /** A file that has settings takes no second section. */
  lemma SecondSectionRefused(c: bytes, settings: seq<Setting>)
    requires IsWasm(c) && Scan(c, 8, None).Ok? && Scan(c, 8, None).value.Some?
    ensures FromGuest(WithSettings(c, settings)).Err?
  {
    Appended(c, settings);
    hide Scan, Encode, Body, Render, IsWasm, WithSettings;
  }

  /** Whatever file they come from, settings have variable names and each of them once. */
  lemma NamesAreDistinct(c: bytes)
    requires FromGuest(c).Ok?
    ensures NamesOk(FromGuest(c).value)
  {
    var found := Scan(c, 8, None);
    if found.value.Some? {
      ParsedNames(TextLines(Text(found.value.value).value));
    }
  }
}
