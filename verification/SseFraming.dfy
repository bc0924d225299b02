/** The framer: chunks in, events out, and the same events however the chunks were cut. */
module SseFraming {
  import opened Wrappers
  import opened Utf8
  import opened Sse
  import opened Texts

  datatype Event = Event(id: string, data: bytes)

  datatype FrameError = NotUtf8 | Unterminated | NotBase64 | TooLong

  /** What is done elsewhere: standard base64, and the id a message without one is given. */
  datatype Codec = Codec(base64: string -> Option<bytes>, contentId: bytes -> string)

  // ---- one block ----------------------------------------------------------

  datatype Fields = Fields(id: string, data: string)

  /** Fields of a block: the last id stands, data lines add up, anything else is passed over. */
  function Gather(lines: seq<string>): Fields {
    if lines == [] then Fields("", "")
    else
      var sofar, line := Gather(lines[..|lines| - 1]), lines[|lines| - 1];
      if "id:" <= line then sofar.(id := Trim(line[3..]))
      else if "data:" <= line then sofar.(data := sofar.data + Trim(line[5..]))
      else sofar
  }

  /** What a field is given in a block, line by line: the trimmed rest of each line that begins with its name. */
  function Values(lines: seq<string>, name: string): seq<string> {
    if lines == [] then []
    else (if name <= lines[0] then [Trim(lines[0][|name|..])] else []) + Values(lines[1..], name)
  }

  function LastOf(values: seq<string>): string {
    if values == [] then "" else values[|values| - 1]
  }

  lemma {:induction false} ValuesJoin(a: seq<string>, b: seq<string>, name: string)
    ensures Values(a + b, name) == Values(a, name) + Values(b, name)
  {
    if a == [] {
      assert a + b == b;
    } else {
      assert (a + b)[1..] == a[1..] + b;
      ValuesJoin(a[1..], b, name);
    }
  }

  lemma {:induction false} ConcatAppends(values: seq<string>, last: string)
    ensures Concat(values + [last]) == Concat(values) + last
  {
    if values == [] {
      assert values + [last] == [last] && Concat([last][1..]) == "";
    } else {
      assert (values + [last])[1..] == values[1..] + [last];
      ConcatAppends(values[1..], last);
    }
  }

  lemma OneValue(line: string, name: string)
    ensures Values([line], name) == if name <= line then [Trim(line[|name|..])] else []
  {
    assert [line][1..] == [];
  }

  /** The data of a block is all its data values end to end, its id the last one given. */
  lemma {:induction false} GatherExactly(lines: seq<string>)
    ensures Gather(lines) == Fields(LastOf(Values(lines, "id:")), Concat(Values(lines, "data:")))
    decreases |lines|
  {
    if lines != [] {
      var front, line := lines[..|lines| - 1], lines[|lines| - 1];
      assert lines == front + [line];
      GatherExactly(front);
      ValuesJoin(front, [line], "id:");
      ValuesJoin(front, [line], "data:");
      OneValue(line, "id:");
      OneValue(line, "data:");
      hide Values, Concat, Trim;
      assert Values(front, "id:") + [] == Values(front, "id:") && Values(front, "data:") + [] == Values(front, "data:");
      assert "id:" <= line ==> line[0] == 'i';
      if "data:" <= line {
        ConcatAppends(Values(front, "data:"), Trim(line[5..]));
      }
    }
  }

  /** What a block says, or nothing for a heartbeat. */
  function Decode(codec: Codec, block: string): Result<Option<Event>, FrameError> {
    var fields := Gather(Lines(block));
    if fields.data == "" then Ok(None)
    else
      var data := codec.base64(fields.data);
      if data.None? then Err(NotBase64)
      else if |data.value| > MAX_MESSAGE then Err(TooLong)
      else Ok(Some(Event(if fields.id == "" then codec.contentId(data.value) else fields.id, data.value)))
  }

  function AsEvents(event: Option<Event>): seq<Event> {
    if event.None? then [] else [event.value]
  }

  /** The events of blocks in order, or the first thing wrong with one. */
  function Decoded(codec: Codec, blocks: seq<string>): Result<seq<Event>, FrameError> {
    if blocks == [] then Ok([]) else Both(Decode(codec, blocks[0]), Decoded(codec, blocks[1..]))
  }

  function Both(first: Result<Option<Event>, FrameError>, rest: Result<seq<Event>, FrameError>): Result<seq<Event>, FrameError> {
    if first.Err? then Err(first.error)
    else if rest.Err? then rest
    else Ok(AsEvents(first.value) + rest.value)
  }

  ghost function Then(first: Result<seq<Event>, FrameError>, rest: Result<seq<Event>, FrameError>): Result<seq<Event>, FrameError> {
    if first.Err? then first else if rest.Err? then rest else Ok(first.value + rest.value)
  }

  lemma ThenGroups(first: Result<Option<Event>, FrameError>, a: Result<seq<Event>, FrameError>, b: Result<seq<Event>, FrameError>)
    ensures Both(first, Then(a, b)) == Then(Both(first, a), b)
  {
    if first.Ok? && a.Ok? && b.Ok? {
      assert AsEvents(first.value) + a.value + b.value == AsEvents(first.value) + (a.value + b.value);
    }
  }

  lemma {:induction false} DecodedJoins(codec: Codec, a: seq<string>, b: seq<string>)
    ensures Decoded(codec, a + b) == Then(Decoded(codec, a), Decoded(codec, b))
  {
    if a == [] {
      assert a + b == b;
      assert Decoded(codec, b).Ok? ==> [] + Decoded(codec, b).value == Decoded(codec, b).value;
    } else {
      assert (a + b)[1..] == a[1..] + b && (a + b)[0] == a[0];
      assert Decoded(codec, a + b) == Both(Decode(codec, a[0]), Decoded(codec, a[1..] + b));
      DecodedJoins(codec, a[1..], b);
      hide Decode, Both, Then;
      ThenGroups(Decode(codec, a[0]), Decoded(codec, a[1..]), Decoded(codec, b));
    }
  }

  /** One block gives its event, if it has one, and a list of blocks the events of each in turn. */
  lemma OneBlock(codec: Codec, block: string, blocks: seq<string>)
    ensures Decoded(codec, [block]) ==
            match Decode(codec, block) { case Err(error) => Err(error) case Ok(None) => Ok([]) case Ok(Some(event)) => Ok([event]) }
    ensures Decoded(codec, blocks + [block]) == Then(Decoded(codec, blocks), Decoded(codec, [block]))
  {
    assert [block][1..] == [] && Decoded(codec, [block]) == Both(Decode(codec, block), Ok([]));
    hide Decode;
    var one := Decode(codec, block);
    assert one.Ok? ==> AsEvents(one.value) + [] == AsEvents(one.value);
    DecodedJoins(codec, blocks, [block]);
  }

  // ---- one push -----------------------------------------------------------

  datatype Outcome = Outcome(result: Result<seq<Event>, FrameError>, buffer: string)

  /** What a push answers and leaves. */
  function Pushed(codec: Codec, buffer: string, chunk: bytes): Outcome {
    var text := Text(chunk);
    if text.None? then Outcome(Err(NotUtf8), buffer)
    else
      var folded := Rewritten(buffer + text.value);
      if Size(folded) > 2 * MAX_MESSAGE then Outcome(Err(Unterminated), folded) else Drained(codec, folded)
  }

  /** Blocks taken off the front while there is one and it decodes. */
  function Drained(codec: Codec, s: string): Outcome
    decreases |s|
  {
    var end := Find(s);
    if end.None? then Outcome(Ok([]), s)
    else
      var event, rest := Decode(codec, s[..end.value + 2]), s[end.value + 2..];
      if event.Err? then Outcome(Err(event.error), rest)
      else
        var more := Drained(codec, rest);
        Outcome(Both(event, more.result), more.buffer)
  }

  /** Taking blocks off is cutting the whole text. */
  lemma {:induction false} DrainedIsCut(codec: Codec, s: string)
    ensures Drained(codec, s).result == Decoded(codec, Cut(s).blocks)
    ensures Drained(codec, s).result.Ok? ==> Drained(codec, s).buffer == Cut(s).rest
    decreases |s|
  {
    hide Decode;
    var end := Find(s);
    if end.Some? {
      var block, rest := s[..end.value + 2], s[end.value + 2..];
      DrainedIsCut(codec, rest);
      assert Cut(s).blocks[0] == block && Cut(s).blocks[1..] == Cut(rest).blocks;
    }
  }

  class SseFramer {
    var buffer: string

    constructor ()
      ensures buffer == ""
    {
      buffer := "";
    }

    method Push(codec: Codec, chunk: bytes) returns (r: Result<seq<Event>, FrameError>)
      modifies this
      ensures Outcome(r, buffer) == Pushed(codec, old(buffer), chunk)
    {
      var text := Text(chunk);
      if text.None? {
        return Err(NotUtf8);
      }
      buffer := buffer + text.value;
      if HasCr(buffer) {
        var hold := EndsWithCr(buffer);
        var norm := CrToLf(JoinCrLf(buffer));
        if hold {
          norm := (if norm == "" then "" else norm[..|norm| - 1]) + "\r";
        }
        buffer := norm;
      }
      assert buffer == Rewritten(old(buffer) + text.value);
      if Size(buffer) > 2 * MAX_MESSAGE {
        return Err(Unterminated);
      }
      r := Drain(codec);
    }

    method Drain(codec: Codec) returns (r: Result<seq<Event>, FrameError>)
      modifies this
      ensures Outcome(r, buffer) == Drained(codec, old(buffer))
    {
      hide Decode;
      var out := [];
      ghost var more := Drained(codec, buffer);
      assert more.result.Ok? ==> [] + more.result.value == more.result.value;
      var end := Find(buffer);
      while end.Some?
        invariant end == Find(buffer)
        invariant Drained(codec, old(buffer))
               == var rest := Drained(codec, buffer); Outcome(Then(Ok(out), rest.result), rest.buffer)
        decreases |buffer|
      {
        var block := buffer[..end.value + 2];
        ghost var was := buffer;
        buffer := buffer[end.value + 2..];
        var event := DecodeBlock(codec, block);
        if event.Err? {
          return Err(event.error);
        }
        Added(codec, out, was, buffer, event.value);
        out := out + AsEvents(event.value);
        end := Find(buffer);
      }
      assert out + [] == out;
      return Ok(out);
    }
  }

  lemma ThenAdds(out: seq<Event>, event: Option<Event>, after: Result<seq<Event>, FrameError>)
    ensures Then(Ok(out), Both(Ok(event), after)) == Then(Ok(out + AsEvents(event)), after)
  {
    if after.Ok? {
      assert out + (AsEvents(event) + after.value) == out + AsEvents(event) + after.value;
    }
  }

  lemma Added(codec: Codec, out: seq<Event>, was: string, buffer: string, event: Option<Event>)
    requires Find(was).Some? && buffer == was[Find(was).value + 2..]
    requires Decode(codec, was[..Find(was).value + 2]) == Ok(event)
    ensures var before, after := Drained(codec, was), Drained(codec, buffer);
            && before.buffer == after.buffer
            && Then(Ok(out), before.result) == Then(Ok(out + AsEvents(event)), after.result)
  {
    hide Decode, Find, Then, Both;
    var after := Drained(codec, buffer);
    assert Drained(codec, was) == Outcome(Both(Ok(event), after.result), after.buffer);
    ThenAdds(out, event, after.result);
  }

  method DecodeBlock(codec: Codec, block: string) returns (r: Result<Option<Event>, FrameError>)
    ensures r == Decode(codec, block)
    ensures var id, data := LastOf(Values(Lines(block), "id:")), Concat(Values(Lines(block), "data:"));
            var bytes := codec.base64(data);
            && (r == Ok(None) <==> data == "")
            && (r == Err(NotBase64) <==> data != "" && bytes.None?)
            && (r == Err(TooLong) <==> data != "" && bytes.Some? && |bytes.value| > 256 * 1024)
            && (data != "" && bytes.Some? && |bytes.value| <= 256 * 1024 ==>
                  r == Ok(Some(Event(if id == "" then codec.contentId(bytes.value) else id, bytes.value))))
  {
    var lines := Lines(block);
    GatherExactly(lines);
    var id, data := "", "";
    for n := 0 to |lines|
      invariant Fields(id, data) == Gather(lines[..n])
    {
      var line := lines[n];
      assert lines[..n + 1][..n] == lines[..n];
      if "id:" <= line {
        id := Trim(line[3..]);
      } else if "data:" <= line {
        data := data + Trim(line[5..]);
      }
    }
    assert lines[..|lines|] == lines;
    if data == "" {
      return Ok(None);
    }
    var decoded := codec.base64(data);
    if decoded.None? {
      return Err(NotBase64);
    }
    if |decoded.value| > MAX_MESSAGE {
      return Err(TooLong);
    }
    if id == "" {
      id := codec.contentId(decoded.value);
    }
    return Ok(Some(Event(id, decoded.value)));
  }

  // ---- a whole stream -----------------------------------------------------

  datatype Framed = Framed(events: seq<Event>, buffer: string)

  /** Chunks pushed one after another, up to the first error. */
  function Run(codec: Codec, buffer: string, chunks: seq<bytes>): Result<Framed, FrameError>
    decreases |chunks|
  {
    if chunks == [] then Ok(Framed([], buffer))
    else
      var first := Pushed(codec, buffer, chunks[0]);
      if first.result.Err? then Err(first.result.error)
      else
        var rest := Run(codec, first.buffer, chunks[1..]);
        if rest.Err? then rest else Ok(Framed(first.result.value + rest.value.events, rest.value.buffer))
  }

  function Flat(chunks: seq<bytes>): bytes {
    if chunks == [] then [] else chunks[0] + Flat(chunks[1..])
  }

  ghost predicate AllText(chunks: seq<bytes>) {
    forall i :: 0 <= i < |chunks| ==> Text(chunks[i]).Some?
  }

  lemma {:induction false} FlatText(chunks: seq<bytes>)
    requires AllText(chunks)
    ensures Text(Flat(chunks)).Some?
    ensures chunks != [] ==> Text(Flat(chunks[1..])).Some?
    ensures chunks != [] ==> Text(Flat(chunks)).value == Text(chunks[0]).value + Text(Flat(chunks[1..])).value
  {
    if chunks != [] {
      FlatText(chunks[1..]);
      TextJoins(chunks[0], Flat(chunks[1..]));
    }
  }

  function TextOf(chunks: seq<bytes>): string
    requires AllText(chunks)
  {
    FlatText(chunks);
    Text(Flat(chunks)).value
  }

  /** The whole text in one view: folded, a last CR held, split at its blank lines. */
  ghost function Whole(text: string): Split {
    Cut(Held(text))
  }

  lemma {:induction false} BlocksEndInLf(blocks: seq<string>)
    requires blocks != [] && forall i :: 0 <= i < |blocks| ==> IsBlock(blocks[i])
    ensures Concat(blocks) != "" && Concat(blocks)[|Concat(blocks)| - 1] == '\n'
  {
    if |blocks| > 1 {
      BlocksEndInLf(blocks[1..]);
    } else {
      assert blocks[1..] == [];
      assert blocks[0] + "" == blocks[0];
    }
  }

  lemma BlocksHaveNoCr(text: string)
    ensures !HasCr(Concat(Whole(text).blocks))
  {
    var held, cut := Held(text), Whole(text);
    CutIsCut(held);
    HeldKeepsEnd(text);
    var front := Concat(cut.blocks);
    if cut.blocks != [] {
      BlocksEndInLf(cut.blocks);
      assert forall i :: 0 <= i < |front| - 1 ==> front[i] == held[i];
    }
  }

  /** A framer that kept only what no block took goes on as if it had kept everything. */
  lemma Resumes(past: string, more: string)
    ensures var next := Cut(Held(Whole(past).rest + more));
            Whole(past + more) == Split(Whole(past).blocks + next.blocks, next.rest)
  {
    var held, cut := Held(past), Whole(past);
    CutIsCut(held);
    BlocksHaveNoCr(past);
    HeldResumes(past, more);
    var front := Concat(cut.blocks);
    assert held + more == front + (cut.rest + more);
    HeldBehind(front, cut.rest + more);
    CutBehind(cut.blocks, Held(cut.rest + more));
  }

  /** Every chunk, with what was waiting before it, stays within the buffer's ceiling. */
  ghost predicate Fits(past: string, chunks: seq<bytes>)
    requires AllText(chunks)
    decreases |chunks|
  {
    chunks != [] ==>
      var text := Text(chunks[0]).value;
      && Size(Held(Whole(past).rest + text)) <= 2 * MAX_MESSAGE
      && Fits(past + text, chunks[1..])
  }

  /** The events of everything so far. */
  ghost function WholeEvents(codec: Codec, text: string): Result<seq<Event>, FrameError> {
    Decoded(codec, Whole(text).blocks)
  }

  ghost predicate Accepted(codec: Codec, past: string, chunks: seq<bytes>) {
    AllText(chunks) && Fits(past, chunks) && WholeEvents(codec, past + TextOf(chunks)).Ok?
  }

  ghost function NextEvents(codec: Codec, past: string, more: string): Result<seq<Event>, FrameError> {
    Decoded(codec, Cut(Held(Whole(past).rest + more)).blocks)
  }

  lemma EventsResume(codec: Codec, past: string, more: string)
    ensures WholeEvents(codec, past + more) == Then(WholeEvents(codec, past), NextEvents(codec, past, more))
  {
    Resumes(past, more);
    DecodedJoins(codec, Whole(past).blocks, Cut(Held(Whole(past).rest + more)).blocks);
  }

  /** One push, told in terms of the whole text so far. */
  lemma PushedWhole(codec: Codec, past: string, chunk: bytes)
    requires Text(chunk).Some?
    ensures var text, p := Text(chunk).value, Pushed(codec, Whole(past).rest, chunk);
            && (p.result.Ok? <==> Size(Held(Whole(past).rest + text)) <= 2 * MAX_MESSAGE && NextEvents(codec, past, text).Ok?)
            && (p.result.Ok? ==> p.buffer == Whole(past + text).rest && p.result == NextEvents(codec, past, text))
  {
    var text := Text(chunk).value;
    RewrittenIsHeld(Whole(past).rest + text);
    Resumes(past, text);
    DrainedIsCut(codec, Held(Whole(past).rest + text));
    hide Decode, Cut, Held, Text, Drained, Rewritten;
  }

  ghost predicate RunAgrees(codec: Codec, past: string, chunks: seq<bytes>) {
    var run := Run(codec, Whole(past).rest, chunks);
    && (run.Ok? <==> Accepted(codec, past, chunks))
    && (run.Ok? ==>
        && run.value.buffer == Whole(past + TextOf(chunks)).rest
        && WholeEvents(codec, past + TextOf(chunks)) == Then(WholeEvents(codec, past), Ok(run.value.events)))
  }

  lemma TextSplits(past: string, chunks: seq<bytes>)
    requires AllText(chunks) && chunks != []
    ensures AllText(chunks[1..])
    ensures past + TextOf(chunks) == past + Text(chunks[0]).value + TextOf(chunks[1..])
  {
    FlatText(chunks);
    assert past + (Text(chunks[0]).value + TextOf(chunks[1..])) == past + Text(chunks[0]).value + TextOf(chunks[1..]);
  }

  lemma AllTextTail(chunks: seq<bytes>)
    requires chunks != []
    ensures AllText(chunks) <==> Text(chunks[0]).Some? && AllText(chunks[1..])
  {
    assert forall i :: 0 < i < |chunks| ==> chunks[i] == chunks[1..][i - 1];
  }

  lemma AcceptedStep(codec: Codec, past: string, chunks: seq<bytes>)
    requires chunks != [] && Text(chunks[0]).Some?
    ensures var text := Text(chunks[0]).value;
            Accepted(codec, past, chunks) <==>
            && Size(Held(Whole(past).rest + text)) <= 2 * MAX_MESSAGE && NextEvents(codec, past, text).Ok?
            && Accepted(codec, past + text, chunks[1..])
            && WholeEvents(codec, past).Ok?
  {
    var text := Text(chunks[0]).value;
    AllTextTail(chunks);
    if AllText(chunks) {
      TextSplits(past, chunks);
      EventsResume(codec, past, text);
      EventsResume(codec, past + text, TextOf(chunks[1..]));
    }
    hide Decoded, Whole, NextEvents, WholeEvents, Held, Text;
  }

  lemma {:induction false} RunWhole(codec: Codec, past: string, chunks: seq<bytes>)
    requires WholeEvents(codec, past).Ok?
    ensures RunAgrees(codec, past, chunks)
    decreases |chunks|
  {
    if chunks == [] {
      assert past + TextOf(chunks) == past;
      var events := WholeEvents(codec, past).value;
      assert events + [] == events;
    } else if Text(chunks[0]).Some? {
      var text := Text(chunks[0]).value;
      var p := Pushed(codec, Whole(past).rest, chunks[0]);
      PushedWhole(codec, past, chunks[0]);
      AcceptedStep(codec, past, chunks);
      EventsResume(codec, past, text);
      hide Pushed, Whole, NextEvents, WholeEvents, Held, Text, Decoded;
      if p.result.Ok? {
        RunWhole(codec, past + text, chunks[1..]);
        RunJoins(codec, past, chunks);
      }
    } else {
      AllTextTail(chunks);
    }
  }

  lemma ThenRegroups(a: Result<seq<Event>, FrameError>, b: Result<seq<Event>, FrameError>, c: Result<seq<Event>, FrameError>)
    ensures Then(Then(a, b), c) == Then(a, Then(b, c))
  {
    if a.Ok? && b.Ok? && c.Ok? {
      assert a.value + b.value + c.value == a.value + (b.value + c.value);
    }
  }

  lemma RunFirst(codec: Codec, buffer: string, chunks: seq<bytes>)
    requires chunks != [] && Pushed(codec, buffer, chunks[0]).result.Ok?
    ensures var p := Pushed(codec, buffer, chunks[0]);
            var run, more := Run(codec, buffer, chunks), Run(codec, p.buffer, chunks[1..]);
            && (run.Ok? <==> more.Ok?)
            && (run.Ok? ==> run.value.buffer == more.value.buffer && Ok(run.value.events) == Then(p.result, Ok(more.value.events)))
  {
  }

  lemma RunJoins(codec: Codec, past: string, chunks: seq<bytes>)
    requires chunks != [] && Text(chunks[0]).Some? && WholeEvents(codec, past).Ok?
    requires Pushed(codec, Whole(past).rest, chunks[0]).result.Ok?
    requires RunAgrees(codec, past + Text(chunks[0]).value, chunks[1..])
    ensures RunAgrees(codec, past, chunks)
  {
    var text := Text(chunks[0]).value;
    RunFirst(codec, Whole(past).rest, chunks);
    PushedWhole(codec, past, chunks[0]);
    AcceptedStep(codec, past, chunks);
    var more := Run(codec, Whole(past + text).rest, chunks[1..]);
    if more.Ok? {
      AllTextTail(chunks);
      TextSplits(past, chunks);
      EventsResume(codec, past, text);
      ThenRegroups(WholeEvents(codec, past), NextEvents(codec, past, text), Ok(more.value.events));
    }
    hide Pushed, Whole, NextEvents, WholeEvents, Held, Text, TextOf, Decoded, Run, Then, Fits, AllText;
  }

  /** A stream is read to its end exactly when every chunk is text on its own, nothing waiting outgrows the
      ceiling and every block decodes; and then its events are those of the whole text. */
  lemma StreamIsWhole(codec: Codec, chunks: seq<bytes>)
    ensures Run(codec, "", chunks).Ok? <==>
              AllText(chunks) && Fits("", chunks) && WholeEvents(codec, TextOf(chunks)).Ok?
    ensures Run(codec, "", chunks).Ok? ==>
              && Run(codec, "", chunks).value.buffer == Whole(TextOf(chunks)).rest
              && Ok(Run(codec, "", chunks).value.events) == WholeEvents(codec, TextOf(chunks))
  {
    assert Whole("") == Split([], "");
    hide Run, Whole, Fits, Text, TextOf, Decoded, AllText;
    RunWhole(codec, "", chunks);
    var run := Run(codec, "", chunks);
    assert run.Ok? ==> [] + run.value.events == run.value.events;
    if AllText(chunks) {
      assert "" + TextOf(chunks) == TextOf(chunks);
    }
  }

  /** However the octets were cut, two readings that get to the end saw the same events. */
  lemma CuttingsAgree(codec: Codec, one: seq<bytes>, other: seq<bytes>)
    requires Flat(one) == Flat(other)
    requires Run(codec, "", one).Ok? && Run(codec, "", other).Ok?
    ensures Run(codec, "", one) == Run(codec, "", other)
  {
    StreamIsWhole(codec, one);
    StreamIsWhole(codec, other);
  }

  // ---- what never errs, and what does -------------------------------------

  lemma {:induction false} FoldSize(s: string)
    ensures Size(Fold(s)) <= Size(s)
    decreases |s|
  {
    if s != "" {
      FoldStep(s);
      FoldSize(s[Sse.Taken(s)..]);
    }
  }

  lemma HeldSize(s: string)
    ensures Size(Held(s)) <= Size(s)
  {
    FoldSize(s);
    if EndsWithCr(s) {
      var most := s[..|s| - 1];
      FoldSize(most);
      SizeJoins(most, "\r");
      SizeJoins(Fold(most), "\r");
      assert most + "\r" == s;
    }
  }

  lemma RestSize(past: string)
    ensures Size(Whole(past).rest) <= Size(past)
  {
    CutIsCut(Held(past));
    HeldSize(past);
    SizeJoins(Concat(Whole(past).blocks), Whole(past).rest);
  }

  lemma {:induction false} SmallFits(past: string, chunks: seq<bytes>)
    requires AllText(chunks) && Size(past) + |Flat(chunks)| <= 2 * MAX_MESSAGE
    ensures Fits(past, chunks)
    decreases |chunks|
  {
    if chunks != [] {
      var text := Text(chunks[0]).value;
      TextSize(chunks[0]);
      RestSize(past);
      SizeJoins(Whole(past).rest, text);
      HeldSize(Whole(past).rest + text);
      SizeJoins(past, text);
      SmallFits(past + text, chunks[1..]);
    }
  }

  /** A text within the ceiling that decodes is read whole, cut anywhere between characters. */
  lemma SmallStreamRead(codec: Codec, chunks: seq<bytes>)
    requires AllText(chunks) && |Flat(chunks)| <= 2 * MAX_MESSAGE
    requires WholeEvents(codec, TextOf(chunks)).Ok?
    ensures Run(codec, "", chunks).Ok?
  {
    SmallFits("", chunks);
    StreamIsWhole(codec, chunks);
  }

  /** A chunk boundary inside a character ends the stream, though the text is sound. */
  lemma CutInsideCharacter(codec: Codec)
    ensures Flat([[0xc3, 0xa9]]) == Flat([[0xc3], [0xa9]])
    ensures Run(codec, "", [[0xc3, 0xa9]]).Ok? && Run(codec, "", [[0xc3], [0xa9]]) == Err(NotUtf8)
  {
    var whole: seq<bytes> := [[0xc3, 0xa9]];
    var cut: seq<bytes> := [[0xc3], [0xa9]];
    assert whole[1..] == [] && cut[1..] == [[0xa9]] && cut[1..][1..] == [];
    assert Flat(whole) == [0xc3, 0xa9] + [] == [0xc3, 0xa9];
    assert Flat(cut[1..]) == [0xa9] + Flat([]) == [0xa9];
    assert Flat(cut) == [0xc3] + [0xa9] == [0xc3, 0xa9];
    assert Text([]) == Some("") && [0xc3, 0xa9][2..] == [];
    assert First([0xc3, 0xa9]) == Some(Utf8.Decoded(0xe9 as char, 2));
    var rest: bytes := [0xc3, 0xa9][2..];
    assert rest == [];
    assert Text([0xc3, 0xa9]) == Some([0xe9 as char] + Text(rest).value);
    assert AllText(whole);
    var text := TextOf(whole);
    assert text == [0xe9 as char];
    assert Held(text) == text by {
      FoldWithoutCr(text);
    }
    assert Find(text).None?;
    SmallStreamRead(codec, whole);
    assert Run(codec, "", cut) == Err(NotUtf8);
  }
}
