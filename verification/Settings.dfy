/** The settings a guest file carries: a custom section of NAME=VALUE lines. */
module Settings {
  import opened Wrappers
  import opened Texts
  import opened Utf8

  const SECTION: string := "enclave-guest-env"

  datatype Setting = Setting(name: string, value: string)

  datatype SettingsError =
    NotWasm | Truncated | PastTheEnd | NamePastTheEnd | TwoSections | NotUtf8 | NotASetting | BadName | SetTwice

  // ---- LEB128 -------------------------------------------------------------

  datatype Leb = Leb(value: nat, next: nat)

  /** A length of at most `left` octets: seven bits each, least significant first, the last one below 128. */
  function ReadLeb(b: bytes, at: nat, left: nat): (r: Option<Leb>)
    ensures r.Some? ==> at < r.value.next <= |b|
    decreases left
  {
    if left == 0 || at >= |b| then None
    else if b[at] < 128 then Some(Leb(b[at], at + 1))
    else
      var more := ReadLeb(b, at + 1, left - 1);
      if more.None? then None else Some(Leb(b[at] - 128 + 128 * more.value.value, more.value.next))
  }

  function WriteLeb(n: nat): bytes {
    if n < 128 then [n] else [128 + n % 128] + WriteLeb(n / 128)
  }

  function Power128(k: nat): nat {
    if k == 0 then 1 else 128 * Power128(k - 1)
  }

  /** What was written reads back, wherever it stands, exactly if it is below 128 to the number of octets read. */
  lemma {:induction false} LebReads(n: nat, left: nat, before: bytes, after: bytes)
    requires left >= 1
    ensures var b := before + WriteLeb(n) + after;
            ReadLeb(b, |before|, left) ==
            if n < Power128(left) then Some(Leb(n, |before| + |WriteLeb(n)|)) else None
    decreases left
  {
    var b := before + WriteLeb(n) + after;
    if n < 128 {
      PowerGrows(left);
    } else if left == 1 {
      assert b[|before|] >= 128;
      assert Power128(1) == 128;
    } else {
      var first := [128 + n % 128];
      LebReads(n / 128, left - 1, before + first, after);
      assert b == (before + first) + WriteLeb(n / 128) + after;
      assert n / 128 < Power128(left - 1) <==> n < 128 * Power128(left - 1);
    }
  }

  lemma {:induction false} PowerGrows(k: nat)
    requires k >= 1
    ensures Power128(k) >= 128
  {
    if k > 1 {
      PowerGrows(k - 1);
    }
  }

  lemma {:induction false} LebKept(b: bytes, more: bytes, at: nat, left: nat)
    requires ReadLeb(b, at, left).Some?
    ensures ReadLeb(b + more, at, left) == ReadLeb(b, at, left)
    decreases left
  {
    assert (b + more)[at] == b[at];
    if b[at] >= 128 {
      LebKept(b, more, at + 1, left - 1);
    }
  }

  const LEB_OCTETS: nat := 5

  method ReadLength(b: bytes, start: nat) returns (r: Option<Leb>)
    ensures r == ReadLeb(b, start, LEB_OCTETS)
  {
    var value: nat, weight: nat, at: nat := 0, 1, start;
    for i := 0 to LEB_OCTETS
      invariant weight >= 1
      invariant ReadLeb(b, start, LEB_OCTETS) ==
                var rest := ReadLeb(b, at, LEB_OCTETS - i);
                if rest.None? then None else Some(Leb(value + weight * rest.value.value, rest.value.next))
    {
      if at >= |b| {
        return None;
      }
      var byte := b[at];
      at := at + 1;
      if byte < 128 {
        return Some(Leb(value + weight * byte, at));
      }
      ghost var rest := ReadLeb(b, at, LEB_OCTETS - i - 1);
      if rest.Some? {
        Weighed(weight, byte - 128, rest.value.value);
      }
      value, weight := value + weight * (byte - 128), weight * 128;
    }
    return None;
  }

  lemma Weighed(weight: nat, low: nat, high: nat)
    ensures weight * (low + 128 * high) == weight * low + weight * 128 * high
  {
  }

  method WriteLength(n: nat) returns (out: bytes)
    ensures out == WriteLeb(n)
  {
    out := [];
    var value := n;
    while value >= 128
      invariant out + WriteLeb(value) == WriteLeb(n)
    {
      assert WriteLeb(value) == [128 + value % 128] + WriteLeb(value / 128);
      assert out + ([128 + value % 128] + WriteLeb(value / 128)) == out + [128 + value % 128] + WriteLeb(value / 128);
      out := out + [128 + value % 128];
      value := value / 128;
    }
    out := out + [value];
  }

  // ---- sections -----------------------------------------------------------

  /** Where a section ends, and the settings it carries if it is the one that does. */
  datatype Section = Section(end: nat, carried: Option<bytes>)

  /** The section at `at`. Of its body no more is looked at than a custom section's name. */
  function ReadSection(c: bytes, at: nat): (r: Result<Section, SettingsError>)
    requires at < |c|
    ensures r.Ok? ==> at < r.value.end <= |c|
  {
    var size := ReadLeb(c, at + 1, LEB_OCTETS);
    if size.None? then Err(Truncated)
    else
      var body, end := size.value.next, size.value.next + size.value.value;
      if end > |c| then Err(PastTheEnd)
      else if c[at] != 0 then Ok(Section(end, None))
      else
        var name := ReadLeb(c, body, LEB_OCTETS);
        if name.None? then Err(Truncated)
        else
          var nameEnd := name.value.next + name.value.value;
          if nameEnd > end then Err(NamePastTheEnd)
          else if c[name.value.next..nameEnd] == Encode(SECTION) then Ok(Section(end, Some(c[nameEnd..end])))
          else Ok(Section(end, None))
  }

  /** Through the sections from `at` on: the one that carries settings, if there is one, and never two. */
  function Scan(c: bytes, at: nat, found: Option<bytes>): Result<Option<bytes>, SettingsError>
    decreases |c| - at
  {
    if at >= |c| then Ok(found)
    else
      var section := ReadSection(c, at);
      if section.Err? then Err(section.error)
      else if section.value.carried.None? then Scan(c, section.value.end, found)
      else if found.Some? then Err(TwoSections)
      else Scan(c, section.value.end, section.value.carried)
  }

  predicate IsWasm(c: bytes) {
    |c| >= 8 && c[..4] == [0, 0x61, 0x73, 0x6d]
  }

  // ---- lines --------------------------------------------------------------

  function WithoutCr(s: string): string {
    if s != "" && s[|s| - 1] == '\r' then s[..|s| - 1] else s
  }

  /** Lines as Rust reads them: a terminator is LF or CRLF, and a last line needs none. */
  function TextLines(s: string): seq<string>
    decreases |s|
  {
    if s == "" then []
    else
      var n := LineLength(s);
      if n == |s| then [s] else [WithoutCr(s[..n])] + TextLines(s[n + 1..])
  }

  predicate NameStart(c: char) {
    'a' <= c <= 'z' || 'A' <= c <= 'Z' || c == '_'
  }

  predicate ValidName(name: string) {
    name != "" && NameStart(name[0]) && forall i :: 0 <= i < |name| ==> NameStart(name[i]) || '0' <= name[i] <= '9'
  }

  function Names(settings: seq<Setting>): set<string> {
    set i | 0 <= i < |settings| :: settings[i].name
  }

  /** One line after those before it. */
  function AddLine(settings: seq<Setting>, line: string): Result<seq<Setting>, SettingsError> {
    if line == "" then Ok(settings)
    else
      var at := IndexOf(line, '=');
      if at.None? then Err(NotASetting)
      else
        var name, value := line[..at.value], line[at.value + 1..];
        if !ValidName(name) then Err(BadName)
        else if name in Names(settings) then Err(SetTwice)
        else Ok(settings + [Setting(name, value)])
  }

  function ParseLines(lines: seq<string>): Result<seq<Setting>, SettingsError> {
    if lines == [] then Ok([])
    else
      var before := ParseLines(lines[..|lines| - 1]);
      if before.Err? then before else AddLine(before.value, lines[|lines| - 1])
  }

  function ParseSection(section: bytes): Result<seq<Setting>, SettingsError> {
    var text := Text(section);
    if text.None? then Err(NotUtf8) else ParseLines(TextLines(text.value))
  }

  /** The settings of a guest file. */
  function FromGuest(c: bytes): Result<seq<Setting>, SettingsError> {
    if !IsWasm(c) then Err(NotWasm)
    else
      var found := Scan(c, 8, None);
      if found.Err? then Err(found.error)
      else if found.value.None? then Ok([])
      else ParseSection(found.value.value)
  }

  method SectionAt(c: bytes, at: nat) returns (r: Result<Section, SettingsError>)
    requires at < |c|
    ensures r == ReadSection(c, at)
  {
    hide Encode, ReadLeb;
    var size := ReadLength(c, at + 1);
    if size.None? {
      return Err(Truncated);
    }
    var end := size.value.next + size.value.value;
    if end > |c| {
      return Err(PastTheEnd);
    }
    if c[at] != 0 {
      return Ok(Section(end, None));
    }
    var name := ReadLength(c, size.value.next);
    if name.None? {
      return Err(Truncated);
    }
    var nameEnd := name.value.next + name.value.value;
    if nameEnd > end {
      return Err(NamePastTheEnd);
    }
    if c[name.value.next..nameEnd] == Encode(SECTION) {
      return Ok(Section(end, Some(c[nameEnd..end])));
    }
    return Ok(Section(end, None));
  }

  /** The settings section found by walking the sections once. */
  method FindSection(c: bytes) returns (r: Result<Option<bytes>, SettingsError>)
    requires |c| >= 8
    ensures r == Scan(c, 8, None)
  {
    hide ReadSection;
    var found: Option<bytes> := None;
    var at: nat := 8;
    while at < |c|
      invariant Scan(c, at, found) == Scan(c, 8, None)
      decreases |c| - at
    {
      var section := SectionAt(c, at);
      if section.Err? {
        return Err(section.error);
      }
      if section.value.carried.Some? {
        if found.Some? {
          return Err(TwoSections);
        }
        found := section.value.carried;
      }
      at := section.value.end;
    }
    return Ok(found);
  }

  method FromGuestFile(c: bytes) returns (r: Result<seq<Setting>, SettingsError>)
    ensures r == FromGuest(c)
  {
    if |c| < 8 || c[..4] != [0, 0x61, 0x73, 0x6d] {
      return Err(NotWasm);
    }
    var found := FindSection(c);
    if found.Err? {
      return Err(found.error);
    }
    if found.value.None? {
      return Ok([]);
    }
    var text := Text(found.value.value);
    if text.None? {
      return Err(NotUtf8);
    }
    r := ReadLines(TextLines(text.value));
  }

  method ReadLines(lines: seq<string>) returns (r: Result<seq<Setting>, SettingsError>)
    ensures r == ParseLines(lines)
  {
    var settings: seq<Setting> := [];
    for n := 0 to |lines|
      invariant ParseLines(lines[..n]) == Ok(settings)
    {
      var line := lines[n];
      FailsOn(lines, n);
      assert lines[..n + 1][..n] == lines[..n];
      if line != "" {
        var at := IndexOf(line, '=');
        if at.None? {
          return Err(NotASetting);
        }
        var name, value := line[..at.value], line[at.value + 1..];
        if !ValidName(name) {
          return Err(BadName);
        }
        if exists i :: 0 <= i < |settings| && settings[i].name == name {
          return Err(SetTwice);
        }
        settings := settings + [Setting(name, value)];
      }
    }
    assert lines[..|lines|] == lines;
    return Ok(settings);
  }

  /** A line that will not do ends the reading. */
  lemma {:induction false} FailsOn(lines: seq<string>, n: nat)
    requires n < |lines|
    ensures ParseLines(lines[..n + 1]).Err? ==> ParseLines(lines) == ParseLines(lines[..n + 1])
    decreases |lines|
  {
    var front := lines[..|lines| - 1];
    if n + 1 < |lines| {
      FailsOn(front, n);
      assert front[..n + 1] == lines[..n + 1];
    } else {
      assert lines[..n + 1] == lines;
    }
  }
}
