/** A guest's output as lines: bounded, never blocking, and the same lines however the writes were cut. */
module LineFraming {
  import opened Wrappers
  import opened Utf8

  const MAX_RECORD: nat := 16 * 1024

  const LF: byte := 0x0a
  const CR: byte := 0x0d

  datatype Record = Record(message: string, truncated: bool)

  // ---- the reference: one octet at a time ---------------------------------

  /** A line under way, the lines completed, and how many octets were cut off them. */
  datatype Framing = Framing(partial: bytes, overflowed: bool, records: seq<Record>, cut: nat)

  const Fresh: Framing := Framing([], false, [], 0)

  predicate EndsInCr(line: bytes) {
    line != [] && line[|line| - 1] == CR
  }

  function WithoutCr(line: bytes): bytes {
    if EndsInCr(line) then line[..|line| - 1] else line
  }

  function FeedByte(lossy: bytes -> string, s: Framing, b: byte): Framing {
    if b == LF then Framing([], false, s.records + [Record(lossy(WithoutCr(s.partial)), s.overflowed)], s.cut)
    else if |s.partial| < MAX_RECORD then s.(partial := s.partial + [b])
    else s.(overflowed := true, cut := s.cut + 1)
  }

  ghost function Feed(lossy: bytes -> string, s: Framing, t: bytes): Framing {
    if t == [] then s else FeedByte(lossy, Feed(lossy, s, t[..|t| - 1]), t[|t| - 1])
  }

  /** Two writes are one write of both. */
  lemma {:induction false} FeedJoins(lossy: bytes -> string, s: Framing, a: bytes, b: bytes)
    ensures Feed(lossy, s, a + b) == Feed(lossy, Feed(lossy, s, a), b)
  {
    if b == [] {
      assert a + b == a;
    } else {
      FeedJoins(lossy, s, a, b[..|b| - 1]);
      assert (a + b)[..|a + b| - 1] == a + b[..|b| - 1];
    }
  }

  // ---- lines of the whole text --------------------------------------------

  function Kept(line: bytes): bytes {
    if |line| > MAX_RECORD then line[..MAX_RECORD] else line
  }

  /** What is recorded of a line, its terminator taken off. */
  function RecordOf(lossy: bytes -> string, line: bytes): Record {
    Record(lossy(Message(line)), |line| > MAX_RECORD)
  }

  datatype Text = Text(lines: seq<bytes>, tail: bytes)

  /** Terminated lines, and what follows the last terminator. */
  ghost function Split(t: bytes): Text {
    if t == [] then Text([], [])
    else
      var s, b := Split(t[..|t| - 1]), t[|t| - 1];
      if b == LF then Text(s.lines + [s.tail], []) else s.(tail := s.tail + [b])
  }

  ghost function Records(lossy: bytes -> string, lines: seq<bytes>): seq<Record> {
    if lines == [] then [] else Records(lossy, lines[..|lines| - 1]) + [RecordOf(lossy, lines[|lines| - 1])]
  }

  ghost function Excess(lines: seq<bytes>): nat {
    if lines == [] then 0 else Excess(lines[..|lines| - 1]) + (|lines[|lines| - 1]| - |Kept(lines[|lines| - 1])|)
  }

  ghost function Lengths(lines: seq<bytes>): nat {
    if lines == [] then 0 else Lengths(lines[..|lines| - 1]) + |lines[|lines| - 1]|
  }

  /** What a record keeps of a line, before it is made text. */
  function Message(line: bytes): bytes {
    WithoutCr(Kept(line))
  }

  ghost function MessageLengths(lines: seq<bytes>): nat {
    if lines == [] then 0 else MessageLengths(lines[..|lines| - 1]) + |Message(lines[|lines| - 1])|
  }

  /** Lines whose record lost a carriage return. */
  ghost function CrsDropped(lines: seq<bytes>): nat {
    if lines == [] then 0
    else CrsDropped(lines[..|lines| - 1]) + if EndsInCr(Kept(lines[|lines| - 1])) then 1 else 0
  }

  /** Framing is splitting the whole text: a record for each terminated line, of its first octets up to the cap
      less one carriage return, marked truncated exactly when the line was longer. */
  lemma {:induction false} FeedIsSplit(lossy: bytes -> string, t: bytes)
    ensures var f, s := Feed(lossy, Fresh, t), Split(t);
            && f.partial == Kept(s.tail) && f.overflowed == (|s.tail| > MAX_RECORD)
            && f.records == Records(lossy, s.lines)
            && f.cut == Excess(s.lines) + (|s.tail| - |Kept(s.tail)|)
  {
    if t != [] {
      var before := t[..|t| - 1];
      FeedIsSplit(lossy, before);
      var s := Split(before);
      assert (s.lines + [s.tail])[..|s.lines|] == s.lines;
    }
  }

  /** The lines and the tail are the text, a terminator between each two. */
  lemma {:induction false} SplitIsText(t: bytes)
    ensures Lengths(Split(t).lines) + |Split(t).lines| + |Split(t).tail| == |t|
    ensures LF !in Split(t).tail && forall i :: 0 <= i < |Split(t).lines| ==> LF !in Split(t).lines[i]
    ensures Terminated(Split(t).lines) + Split(t).tail == t
  {
    if t != [] {
      var before := t[..|t| - 1];
      SplitIsText(before);
      var s := Split(before);
      assert (s.lines + [s.tail])[..|s.lines|] == s.lines;
      assert t == before + [t[|t| - 1]];
    }
  }

  ghost function Terminated(lines: seq<bytes>): bytes {
    if lines == [] then [] else Terminated(lines[..|lines| - 1]) + lines[|lines| - 1] + [LF]
  }

  lemma {:induction false} LengthsSplit(lines: seq<bytes>)
    ensures Lengths(lines) == MessageLengths(lines) + CrsDropped(lines) + Excess(lines)
  {
    if lines != [] {
      LengthsSplit(lines[..|lines| - 1]);
    }
  }

  /** No octet goes unaccounted for while the stream is open: it is in a record, or was a carriage return taken
      off one, or was counted as cut, or ended a line, or waits in the line under way. */
  lemma Conservation(lossy: bytes -> string, t: bytes)
    ensures var f, lines := Feed(lossy, Fresh, t), Split(t).lines;
            && f.records == Records(lossy, lines)
            && |t| == MessageLengths(lines) + CrsDropped(lines) + |lines| + |f.partial| + f.cut
  {
    FeedIsSplit(lossy, t);
    SplitIsText(t);
    LengthsSplit(Split(t).lines);
  }

  // ---- a stream that has ended --------------------------------------------

  /** The framing once the stream is closed: a line under way is recorded as if it had ended. */
  function Closed(lossy: bytes -> string, f: Framing): Framing {
    if f.partial != [] || f.overflowed then FeedByte(lossy, f, LF) else f
  }

  /** Every line of a stream that has ended: those terminated, and the last one if anything of it was written. */
  ghost function AllLines(t: bytes): seq<bytes> {
    Split(t).lines + if Split(t).tail == [] then [] else [Split(t).tail]
  }

  /** A stream from its first octet to its close: each of its lines is recorded once, in order, nothing is held
      back, and every octet is in a record, was a carriage return taken off one, was counted as cut, or ended a
      line. */
  lemma ClosedStream(lossy: bytes -> string, t: bytes)
    ensures var f, lines := Closed(lossy, Feed(lossy, Fresh, t)), AllLines(t);
            && f.records == Records(lossy, lines) && f.partial == [] && !f.overflowed
            && |t| == MessageLengths(lines) + CrsDropped(lines) + |Split(t).lines| + f.cut
  {
    var s, lines := Split(t), AllLines(t);
    FeedIsSplit(lossy, t);
    SplitIsText(t);
    LengthsSplit(lines);
    if s.tail == [] {
      assert lines == s.lines;
    } else {
      assert lines[..|s.lines|] == s.lines && lines[|s.lines|] == s.tail;
    }
  }

  /** What a line would be recorded as if only its terminator's own carriage return came off. */
  ghost function TerminatorOnly(line: bytes, terminated: bool): bytes {
    if terminated then Kept(WithoutCr(line)) else Kept(line)
  }

  /** A terminated line loses another carriage return when the cap falls just behind one; an unterminated line has
      no terminator, and loses one whenever its kept prefix ends in one. */
  predicate LosesOwnCr(line: bytes, terminated: bool) {
    if terminated then |line| > MAX_RECORD && line[MAX_RECORD - 1] == CR else EndsInCr(Kept(line))
  }

  /** A line is recorded without its terminator's carriage return and otherwise as it was, exactly unless it loses
      one of its own. */
  lemma TerminatorsCrOnly(line: bytes, terminated: bool)
    ensures Message(line) == TerminatorOnly(line, terminated) <==> !LosesOwnCr(line, terminated)
  {
    if |line| > MAX_RECORD {
      assert WithoutCr(line)[..MAX_RECORD] == line[..MAX_RECORD];
    }
  }

  /** A last line left unterminated behind a carriage return loses it, though no terminator was written. */
  lemma UnterminatedLosesCr(lossy: bytes -> string)
    ensures Closed(lossy, Feed(lossy, Fresh, [0x78, CR])).records == [Record(lossy([0x78]), false)]
    ensures LosesOwnCr([0x78, CR], false)
  {
    var t: bytes := [0x78, CR];
    assert t[..1] == [0x78] && t[..1][..0] == [];
    assert Feed(lossy, Fresh, []) == Fresh;
    assert Feed(lossy, Fresh, t[..1]) == FeedByte(lossy, Fresh, 0x78);
    assert Feed(lossy, Fresh, t) == Framing(t, false, [], 0);
    assert WithoutCr(t) == [0x78];
  }

  // ---- a run of octets at once --------------------------------------------

  function Extended(s: Framing, t: bytes): Framing {
    var room := if |s.partial| < MAX_RECORD then MAX_RECORD - |s.partial| else 0;
    if t == [] then s
    else if |t| > room then s.(partial := s.partial + t[..room], overflowed := true, cut := s.cut + (|t| - room))
    else s.(partial := s.partial + t)
  }

  lemma {:induction false} ExtendedIsFeed(lossy: bytes -> string, s: Framing, t: bytes)
    requires LF !in t && |s.partial| <= MAX_RECORD
    ensures Feed(lossy, s, t) == Extended(s, t)
  {
    if t != [] {
      var before, b := t[..|t| - 1], t[|t| - 1];
      ExtendedIsFeed(lossy, s, before);
      assert t == before + [b];
      var room := MAX_RECORD - |s.partial|;
      if |t| > room {
        assert |before| > room ==> before[..room] == t[..room];
        assert |before| == room ==> before == t[..room];
      } else {
        assert s.partial + before + [b] == s.partial + t;
      }
    }
  }

  // ---- the queue and the counters -----------------------------------------

  /** Bytes and records lost, for the collector to report. */
  class DropCounters {
    var records: nat
    var bytes: nat

    constructor ()
      ensures records == 0 && bytes == 0
    {
      records, bytes := 0, 0;
    }
  }

  ghost function Accepted(accepts: nat -> bool, tries: nat, records: seq<Record>): seq<Record> {
    if records == [] then []
    else
      var last := |records| - 1;
      Accepted(accepts, tries, records[..last]) + if accepts(tries + last) then [records[last]] else []
  }

  ghost function Rejected(accepts: nat -> bool, tries: nat, records: seq<Record>): seq<Record> {
    if records == [] then []
    else
      var last := |records| - 1;
      Rejected(accepts, tries, records[..last]) + if accepts(tries + last) then [] else [records[last]]
  }

  ghost function MessageBytes(records: seq<Record>): nat {
    if records == [] then 0
    else MessageBytes(records[..|records| - 1]) + Size(records[|records| - 1].message)
  }

  /** Every record is handed on or counted as lost, never both and never neither. */
  lemma {:induction false} HandedOnOrCounted(accepts: nat -> bool, tries: nat, records: seq<Record>)
    ensures multiset(Accepted(accepts, tries, records)) + multiset(Rejected(accepts, tries, records)) == multiset(records)
  {
    if records != [] {
      var front, r := records[..|records| - 1], records[|records| - 1];
      HandedOnOrCounted(accepts, tries, front);
      assert records == front + [r];
      var a, b := Accepted(accepts, tries, front), Rejected(accepts, tries, front);
      OneMoreCounted(a, b, front, r);
      if accepts(tries + |front|) {
        assert Accepted(accepts, tries, records) == a + [r] && Rejected(accepts, tries, records) == b;
      } else {
        assert Accepted(accepts, tries, records) == a && Rejected(accepts, tries, records) == b + [r];
      }
    }
  }

  lemma OneMoreCounted(a: seq<Record>, b: seq<Record>, front: seq<Record>, r: Record)
    requires multiset(a) + multiset(b) == multiset(front)
    ensures multiset(a + [r]) + multiset(b) == multiset(front + [r])
    ensures multiset(a) + multiset(b + [r]) == multiset(front + [r])
  {
  }

  /** A queue that has room takes all of them, in order. */
  lemma {:induction false} RoomTakesAll(accepts: nat -> bool, tries: nat, records: seq<Record>)
    requires forall k :: tries <= k < tries + |records| ==> accepts(k)
    ensures Accepted(accepts, tries, records) == records && Rejected(accepts, tries, records) == []
  {
    if records != [] {
      RoomTakesAll(accepts, tries, records[..|records| - 1]);
    }
  }

  /** A bounded queue a collector drains as it will: whether the n-th record offered finds room is not the
      writer's to know. */
  class LogQueue {
    const accepts: nat -> bool
    var tries: nat
    var sent: seq<Record>

    constructor (accepts: nat -> bool)
      ensures this.accepts == accepts && tries == 0 && sent == []
    {
      this.accepts, tries, sent := accepts, 0, [];
    }

    method TrySend(record: Record) returns (ok: bool)
      modifies this
      ensures ok == accepts(old(tries)) && tries == old(tries) + 1
      ensures sent == old(sent) + if ok then [record] else []
    {
      ok := accepts(tries);
      tries := tries + 1;
      if ok {
        sent := sent + [record];
      }
    }
  }

  function Position(t: bytes, b: byte): (r: Option<nat>)
    ensures r.Some? ==> r.value < |t| && t[r.value] == b && b !in t[..r.value]
    ensures r.None? ==> b !in t
  {
    if t == [] then None
    else if t[0] == b then Some(0)
    else
      var r := Position(t[1..], b);
      if r.None? then None
      else
        assert t[..r.value + 1] == [t[0]] + t[1..][..r.value];
        Some(r.value + 1)
  }

  /** The queue and the counters, at one moment. */
  datatype Tally = Tally(tries: nat, sent: seq<Record>, lost: nat, lostBytes: nat)

  /** The tally after these records were offered and these octets cut. */
  ghost function Offered(accepts: nat -> bool, before: Tally, records: seq<Record>, cut: nat): Tally {
    var rejected := Rejected(accepts, before.tries, records);
    Tally(before.tries + |records|, before.sent + Accepted(accepts, before.tries, records),
          before.lost + |rejected|, before.lostBytes + cut + MessageBytes(rejected))
  }

  lemma RejectedOneMore(accepts: nat -> bool, tries: nat, records: seq<Record>, r: Record)
    ensures var all, before := Rejected(accepts, tries, records + [r]), Rejected(accepts, tries, records);
            if accepts(tries + |records|) then all == before
            else |all| == |before| + 1 && MessageBytes(all) == MessageBytes(before) + Size(r.message)
  {
  }

  lemma AcceptedOneMore(accepts: nat -> bool, tries: nat, records: seq<Record>, r: Record)
    ensures Accepted(accepts, tries, records + [r])
         == Accepted(accepts, tries, records) + if accepts(tries + |records|) then [r] else []
  {
    assert (records + [r])[..|records|] == records;
  }

  lemma OfferedOne(accepts: nat -> bool, before: Tally, r: Record, cut: nat)
    ensures var ok := accepts(before.tries);
            Offered(accepts, before, [r], cut) ==
            Tally(before.tries + 1, before.sent + (if ok then [r] else []),
                  before.lost + (if ok then 0 else 1), before.lostBytes + cut + if ok then 0 else Size(r.message))
  {
    assert [] + [r] == [r];
    RejectedOneMore(accepts, before.tries, [], r);
    AcceptedOneMore(accepts, before.tries, [], r);
  }

  lemma OfferedOneMore(accepts: nat -> bool, before: Tally, records: seq<Record>, r: Record, cut: nat, more: nat)
    ensures Offered(accepts, before, records + [r], cut + more)
         == Offered(accepts, Offered(accepts, before, records, cut), [r], more)
  {
    OfferedOne(accepts, Offered(accepts, before, records, cut), r, more);
    RejectedOneMore(accepts, before.tries, records, r);
    AcceptedOneMore(accepts, before.tries, records, r);
    hide Rejected, Accepted, MessageBytes;
  }

  /** One stream's unfinished line, and where its records go. */
  class LineFramer {
    const lossy: bytes -> string
    const queue: LogQueue
    const drops: DropCounters
    var partial: bytes
    var overflowed: bool

    constructor (lossy: bytes -> string, queue: LogQueue, drops: DropCounters)
      ensures this.lossy == lossy && this.queue == queue && this.drops == drops
      ensures partial == [] && !overflowed
    {
      this.lossy, this.queue, this.drops := lossy, queue, drops;
      partial, overflowed := [], false;
    }

    /** The line under way, nothing yet recorded or cut. */
    ghost function Line(): Framing
      reads this
    {
      Framing(partial, overflowed, [], 0)
    }

    /** What fits of a line is kept; what does not is counted, whatever its size. */
    method Extend(t: bytes)
      requires |partial| <= MAX_RECORD
      modifies this, drops
      ensures var f := Extended(old(Line()), t);
              && partial == f.partial && overflowed == f.overflowed
              && drops.bytes == old(drops.bytes) + f.cut && drops.records == old(drops.records)
      ensures |partial| <= MAX_RECORD
    {
      if t == [] {
        return;
      }
      var room := MAX_RECORD - |partial|;
      if room == 0 {
        overflowed := true;
        drops.bytes := drops.bytes + |t|;
        return;
      }
      if |t| > room {
        partial := partial + t[..room];
        overflowed := true;
        drops.bytes := drops.bytes + (|t| - room);
      } else {
        partial := partial + t;
      }
    }

    /** The queue and the counters as they stand. */
    ghost function Now(): Tally
      reads queue, drops
    {
      Tally(queue.tries, queue.sent, drops.records, drops.bytes)
    }

    /** The line goes to the queue, or is counted if there is no room for it. */
    method Emit()
      modifies this, queue, drops
      ensures partial == [] && !overflowed
      ensures Now() == Offered(queue.accepts, old(Now()), [Record(lossy(WithoutCr(old(partial))), old(overflowed))], 0)
    {
      OfferedOne(queue.accepts, Now(), Record(lossy(WithoutCr(partial)), overflowed), 0);
      hide Offered, Accepted, Rejected, MessageBytes, Size;
      var line, truncated := partial, overflowed;
      partial, overflowed := [], false;
      if line != [] && line[|line| - 1] == CR {
        line := line[..|line| - 1];
      }
      var record := Record(lossy(line), truncated);
      var ok := queue.TrySend(record);
      if !ok {
        drops.records := drops.records + 1;
        drops.bytes := drops.bytes + Size(record.message);
      }
    }

    /** A terminated line, absorbed and sent. */
    method TakeLine(line: bytes)
      requires |partial| <= MAX_RECORD
      modifies this, queue, drops
      ensures partial == [] && !overflowed
      ensures var g := Extended(old(Line()), line);
              Now() == Offered(queue.accepts, old(Now()), [Record(lossy(WithoutCr(g.partial)), g.overflowed)], g.cut)
    {
      Extend(line);
      hide Extended;
      Emit();
    }

    /** A write of any size, absorbed as its octets would be one by one. */
    method Push(t: bytes)
      requires |partial| <= MAX_RECORD
      modifies this, queue, drops
      ensures |partial| <= MAX_RECORD
      ensures var f := Feed(lossy, old(Line()), t);
              && partial == f.partial && overflowed == f.overflowed
              && Now() == Offered(queue.accepts, old(Now()), f.records, f.cut)
    {
      hide Accepted, Rejected, MessageBytes, WithoutCr, Feed;
      FeedNothing(lossy, Line());
      ghost var start, before := Line(), Now();
      var rest := t;
      ghost var done: bytes := [];
      ghost var f := start;
      OfferedNothing(queue.accepts, before, 0);
      var at := Position(rest, LF);
      while at.Some?
        invariant at == Position(rest, LF) && done + rest == t
        invariant f == Feed(lossy, start, done) && Line() == f.(records := [], cut := 0) && |partial| <= MAX_RECORD
        invariant Now() == Offered(queue.accepts, before, f.records, f.cut)
        decreases |rest|
      {
        var line := rest[..at.value];
        ghost var g := Extended(Line(), line);
        TakeLine(line);
        LineFed(lossy, start, done, line);
        OfferedOneMore(queue.accepts, before, f.records, Record(lossy(WithoutCr(g.partial)), g.overflowed), f.cut, g.cut);
        ExtendedShift(f, line);
        f := FeedByte(lossy, Extended(f, line), LF);
        Consumed(t, done, rest, at.value);
        done := done + line + [LF];
        rest := rest[at.value + 1..];
        at := Position(rest, LF);
      }
      ghost var g := Extended(Line(), rest);
      ghost var now := Now();
      Extend(rest);
      FeedJoins(lossy, start, done, rest);
      ExtendedIsFeed(lossy, f, rest);
      ExtendedShift(f, rest);
      hide Extended, Feed;
      assert Now() == now.(lostBytes := now.lostBytes + g.cut);
    }

    /** An unterminated line is still a line; nothing written is nothing said. */
    method Finish()
      modifies this, queue, drops
      ensures var f := Closed(lossy, old(Line()));
              && partial == f.partial && overflowed == f.overflowed
              && Now() == Offered(queue.accepts, old(Now()), f.records, f.cut)
    {
      OfferedNothing(queue.accepts, Now(), 0);
      assert Now().(lostBytes := Now().lostBytes + 0) == Now();
      if partial != [] || overflowed {
        Emit();
      }
    }
  }

  lemma FeedNothing(lossy: bytes -> string, s: Framing)
    ensures Feed(lossy, s, []) == s
  {
  }

  lemma OfferedNothing(accepts: nat -> bool, before: Tally, cut: nat)
    ensures Offered(accepts, before, [], cut) == before.(lostBytes := before.lostBytes + cut)
  {
  }

  lemma Consumed(t: bytes, done: bytes, rest: bytes, at: nat)
    requires done + rest == t && at < |rest| && rest[at] == LF
    ensures done + rest[..at] + [LF] + rest[at + 1..] == t
  {
    assert rest == rest[..at] + [LF] + rest[at + 1..];
  }

  /** Extending a line leaves alone what was recorded and cut before it. */
  lemma ExtendedShift(f: Framing, line: bytes)
    ensures var g := Extended(f.(records := [], cut := 0), line);
            Extended(f, line) == g.(records := f.records, cut := f.cut + g.cut)
  {
  }

  lemma LineFed(lossy: bytes -> string, start: Framing, done: bytes, line: bytes)
    requires LF !in line && |Feed(lossy, start, done).partial| <= MAX_RECORD
    ensures Feed(lossy, start, done + line + [LF]) == FeedByte(lossy, Extended(Feed(lossy, start, done), line), LF)
  {
    FeedJoins(lossy, start, done, line);
    ExtendedIsFeed(lossy, Feed(lossy, start, done), line);
    assert (done + line + [LF])[..|done + line|] == done + line;
  }
}
