/** What taking text apart comes to, said of the text itself. */
module TextLaws {
  import opened Wrappers
  import opened Numbers
  import opened Texts

  // ---- trimming -----------------------------------------------------------

  predicate AllWhite(s: string) {
    forall i :: 0 <= i < |s| ==> White(s[i])
  }

  /** No white space at either end. */
  predicate Tight(s: string) {
    s != "" ==> !White(s[0]) && !White(s[|s| - 1])
  }

  ghost predicate TrimmedFrom(s: string, before: string, t: string, after: string) {
    s == before + t + after && AllWhite(before) && AllWhite(after) && Tight(t)
  }

  /** All of a text but the white space around it. */
  ghost predicate Trimmed(s: string, t: string) {
    exists before, after :: TrimmedFrom(s, before, t, after)
  }

  lemma MoreBefore(s: string, t: string)
    requires s != "" && White(s[0]) && Trimmed(s[1..], t)
    ensures Trimmed(s, t)
  {
    var before, after :| TrimmedFrom(s[1..], before, t, after);
    hide White;
    assert s == [s[0]] + s[1..] == [s[0]] + before + t + after;
    assert TrimmedFrom(s, [s[0]] + before, t, after);
  }

  lemma MoreAfter(s: string, t: string)
    requires s != "" && White(s[|s| - 1]) && Trimmed(s[..|s| - 1], t)
    ensures Trimmed(s, t)
  {
    var before, after :| TrimmedFrom(s[..|s| - 1], before, t, after);
    hide White;
    var last := [s[|s| - 1]];
    assert s == s[..|s| - 1] + last == before + t + (after + last);
    assert TrimmedFrom(s, before, t, after + last);
  }

  lemma {:induction false} TrimsTo(s: string)
    ensures Trimmed(s, Trim(s))
    decreases |s|
  {
    hide White;
    if s == "" {
      assert TrimmedFrom(s, "", "", "");
    } else if White(s[0]) {
      TrimsTo(s[1..]);
      MoreBefore(s, Trim(s));
    } else if White(s[|s| - 1]) {
      TrimsTo(s[..|s| - 1]);
      MoreAfter(s, Trim(s));
    } else {
      assert s == "" + s + "";
      assert TrimmedFrom(s, "", s, "");
    }
  }

  lemma {:induction false} TrimOf(before: string, t: string, after: string)
    requires AllWhite(before) && AllWhite(after) && Tight(t)
    ensures Trim(before + t + after) == t
    decreases |before| + |after|
  {
    var s := before + t + after;
    if before != "" {
      assert s[1..] == before[1..] + t + after;
      TrimOf(before[1..], t, after);
    } else if after != "" {
      assert s == t + after;
      var front := after[..|after| - 1];
      if t == "" {
        assert s == after && s[1..] == before + t + after[1..];
        TrimOf(before, t, after[1..]);
      } else {
        assert s[..|s| - 1] == before + t + front;
        TrimOf(before, t, front);
      }
    } else {
      assert s == t;
    }
  }

  /** Trimming gives all of the text but the white space around it, and there is one such rest. */
  lemma TrimExactly(s: string, t: string)
    ensures Trim(s) == t <==> Trimmed(s, t)
  {
    TrimsTo(s);
    if before, after :| TrimmedFrom(s, before, t, after) {
      TrimOf(before, t, after);
    }
  }

  // ---- lines --------------------------------------------------------------

  /** Lines, each with its end. */
  function Terminated(lines: seq<string>): string {
    if lines == [] then "" else lines[0] + "\n" + Terminated(lines[1..])
  }

  predicate NoBreak(line: string) {
    '\n' !in line
  }

  lemma {:induction false} LineLengthOf(line: string, rest: string)
    requires NoBreak(line) && (rest == "" || rest[0] == '\n')
    ensures LineLength(line + rest) == |line|
  {
    if line != "" {
      assert (line + rest)[1..] == line[1..] + rest;
      LineLengthOf(line[1..], rest);
    } else {
      assert line + rest == rest;
    }
  }

  lemma FirstLine(line: string, rest: string)
    requires NoBreak(line)
    ensures Lines(line + "\n" + rest) == [line] + Lines(rest)
  {
    var s := line + "\n" + rest;
    assert s == line + ("\n" + rest);
    LineLengthOf(line, "\n" + rest);
    assert s[..|line|] == line && s[|line| + 1..] == rest;
    hide LineLength;
    if rest == "" {
      assert Lines(s) == [s[..|line|]] + Lines(s[|line| + 1..]);
    }
  }

  lemma LastLine(last: string)
    requires NoBreak(last)
    ensures Lines(last) == if last == "" then [] else [last]
  {
    LineLengthOf(last, "");
    assert last + "" == last && last[..|last|] == last;
  }

  /** A text's lines are what stands before its line feeds, and after the last one if anything does. */
  lemma {:induction false} LinesOf(lines: seq<string>, last: string)
    requires (forall i :: 0 <= i < |lines| ==> NoBreak(lines[i])) && NoBreak(last)
    ensures Lines(Terminated(lines) + last) == lines + (if last == "" then [] else [last])
    decreases |lines|
  {
    var end := if last == "" then [] else [last];
    hide Lines, NoBreak;
    LastLine(last);
    if lines == [] {
      assert Terminated(lines) + last == last && lines + end == end;
    } else {
      var rest := Terminated(lines[1..]) + last;
      assert Terminated(lines) + last == lines[0] + "\n" + rest;
      FirstLine(lines[0], rest);
      LinesOf(lines[1..], last);
      assert [lines[0]] + (lines[1..] + end) == lines + end;
    }
  }

  // ---- numerals -----------------------------------------------------------

  /** The digits are the ones people use. */
  lemma DigitsAreDigits(d: nat)
    ensures d < 10 ==> Digit(d) == "0123456789"[d]
    ensures d < 16 ==> HexDigit(d) == "0123456789abcdef"[d]
  {
  }

  predicate Canonical(s: string) {
    s != "" && (s[0] == '0' ==> s == "0") && DecimalValue(s).Some?
  }

  lemma {:induction false} DecimalFront(n: nat)
    ensures Canonical(Decimal(n))
    decreases n
  {
    DecimalReads(n);
    if n >= 10 {
      DecimalFront(n / 10);
      assert Decimal(n)[0] == Decimal(n / 10)[0];
    }
  }

  lemma {:induction false} CanonicalPositive(s: string)
    requires Canonical(s) && s != "0"
    ensures DecimalValue(s).value > 0
    decreases |s|
  {
    var front := s[..|s| - 1];
    if front == "" {
      assert s[0] != '0';
    } else {
      assert front[0] == s[0];
      assert front != "0";
      CanonicalPositive(front);
    }
  }

  lemma {:induction false} CanonicalIsDecimal(s: string)
    requires Canonical(s)
    ensures s == Decimal(DecimalValue(s).value)
    decreases |s|
  {
    var front, last := s[..|s| - 1], s[|s| - 1];
    assert s == front + [last];
    if front != "" {
      assert front[0] == s[0];
      assert front != "0";
      CanonicalPositive(front);
      CanonicalIsDecimal(front);
    }
  }

  /** A number has one numeral that does not begin with a nought, or is one. */
  lemma DecimalExactly(n: nat, s: string)
    ensures s == Decimal(n) <==> Canonical(s) && DecimalValue(s) == Some(n)
  {
    DecimalFront(n);
    DecimalReads(n);
    if Canonical(s) {
      CanonicalIsDecimal(s);
    }
  }

  /** Noughts in front change nothing. */
  lemma {:induction false} LeadingNought(s: string)
    ensures DecimalValue("0" + s) == DecimalValue(s)
    decreases |s|
  {
    if s == "" {
      assert ("0" + s)[..0] == "" && DecimalValue("") == Some(0);
    } else {
      LeadingNought(s[..|s| - 1]);
      assert ("0" + s)[..|s|] == "0" + s[..|s| - 1];
    }
  }

  /** A number in decimal reads back, with or without a plus sign, exactly while it fits 64 bits. */
  lemma ParsesBack(n: nat)
    ensures ParseU64(Decimal(n)) == (if n < U64 then Some(n) else None)
    ensures ParseU64("+" + Decimal(n)) == (if n < U64 then Some(n) else None)
  {
    DecimalReads(n);
    DecimalFront(n);
    FrontDigit(n);
    assert ("+" + Decimal(n))[1..] == Decimal(n);
  }

  lemma {:induction false} FrontDigit(n: nat)
    ensures Decimal(n)[0] != '+'
    decreases n
  {
    if n >= 10 {
      FrontDigit(n / 10);
    }
  }

  // ---- what follows a tag -------------------------------------------------

  predicate OccursAt(s: string, tag: string, i: nat) {
    i + |tag| <= |s| && s[i..i + |tag|] == tag
  }

  predicate FirstAt(s: string, tag: string, i: nat) {
    OccursAt(s, tag, i) && forall j: nat :: j < i ==> !OccursAt(s, tag, j)
  }

  /** The rest of a text after the first occurrence of a tag. */
  ghost predicate Follows(s: string, tag: string, rest: string) {
    exists i: nat :: FirstAt(s, tag, i) && rest == s[i + |tag|..]
  }

  lemma {:induction false} AfterExactly(s: string, tag: string, rest: string)
    ensures After(s, tag) == Some(rest) <==> Follows(s, tag, rest)
    decreases |s|
  {
    if tag <= s {
      assert OccursAt(s, tag, 0);
      assert FirstAt(s, tag, 0);
    } else if s != "" {
      AfterExactly(s[1..], tag, rest);
      forall i: nat ensures OccursAt(s, tag, i + 1) <==> OccursAt(s[1..], tag, i) {
        if i + 1 + |tag| <= |s| {
          assert s[i + 1..i + 1 + |tag|] == s[1..][i..i + |tag|];
        }
      }
      assert !OccursAt(s, tag, 0);
      if i: nat :| FirstAt(s, tag, i) && rest == s[i + |tag|..] {
        assert OccursAt(s[1..], tag, i - 1);
        forall j: nat | j < i - 1 ensures !OccursAt(s[1..], tag, j) {
          assert !OccursAt(s, tag, j + 1);
        }
        assert FirstAt(s[1..], tag, i - 1);
        assert rest == s[1..][i - 1 + |tag|..];
      }
      if i: nat :| FirstAt(s[1..], tag, i) && rest == s[1..][i + |tag|..] {
        forall j: nat | j < i + 1 ensures !OccursAt(s, tag, j) {
          if j > 0 {
            assert !OccursAt(s[1..], tag, j - 1);
          }
        }
        assert FirstAt(s, tag, i + 1);
        assert rest == s[i + 1 + |tag|..];
      }
    }
  }
}
