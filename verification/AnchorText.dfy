/** The marker as text, and the decision a boot takes on one. */
module AnchorText {
  import opened Wrappers
  import opened Numbers
  import opened Anchors
  import opened Texts
  import opened TextLaws
  import opened Utf8
  import opened AnchorCodec

  /** `<number>-<nonce>-<previous hash>`. */
  function Render(m: Marker<bytes>): string {
    Decimal(m.num) + "-" + Hex(m.nonce) + "-" + Hex(m.prev)
  }

  predicate Sized(m: Marker<bytes>) {
    |m.nonce| == 32 && |m.prev| == 32
  }

  datatype Refusal = NoTxg | OtherGuid | Older | OtherMarker

  /** Whether the newest anchor vouches for a loaded state that holds this text. */
  function Admit(tip: Sealed, keys: Keys, loaded: Option<nat>, text: string, guid: nat): Result<(), Refusal> {
    if loaded.None? then Err(NoTxg)
    else if guid != tip.anchor.guid then Err(OtherGuid)
    else if loaded.value < tip.anchor.txg then Err(Older)
    else if text == Render(MarkerOf(tip.anchor)) then Ok(())
    else if IsNext(SplitAt(text, '-'), (tip.anchor.num + 1) % U64, keys.digest(tip.encoded)) then Ok(())
    else Err(OtherMarker)
  }

  predicate IsNext(pieces: seq<string>, num: nat, hash: bytes) {
    |pieces| == 3 && pieces[0] == Decimal(num) && Size(pieces[1]) == 64 && pieces[2] == Hex(hash)
  }

  lemma PiecesOf(num: nat, nonce: string, prev: bytes)
    requires '-' !in nonce
    ensures SplitAt(Decimal(num) + "-" + nonce + "-" + Hex(prev), '-') == [Decimal(num), nonce, Hex(prev)]
  {
    DecimalHasNoDash(num);
    HexHasNoDash(prev);
    var rest := nonce + ['-'] + Hex(prev);
    assert Decimal(num) + "-" + nonce + "-" + Hex(prev) == Decimal(num) + ['-'] + rest;
    hide SplitAt, Decimal, Hex;
    SplitFirst(Decimal(num), rest, '-');
    SplitFirst(nonce, Hex(prev), '-');
    SplitFirst(Hex(prev), "", '-');
  }

  /** Different markers are different texts. */
  lemma RenderInjective(a: Marker<bytes>, b: Marker<bytes>)
    requires Render(a) == Render(b)
    ensures a == b
  {
    HexHasNoDash(a.nonce);
    HexHasNoDash(b.nonce);
    PiecesOf(a.num, Hex(a.nonce), a.prev);
    PiecesOf(b.num, Hex(b.nonce), b.prev);
    var pieces := SplitAt(Render(a), '-');
    assert pieces[0] == Decimal(a.num) == Decimal(b.num);
    DecimalReads(a.num);
    DecimalReads(b.num);
    assert pieces[1] == Hex(a.nonce) == Hex(b.nonce);
    assert pieces[2] == Hex(a.prev) == Hex(b.prev);
    HexInjective(a.nonce, b.nonce);
    HexInjective(a.prev, b.prev);
  }

  /** The text of an anchor written but not published, for some piece as long as a nonce. */
  ghost predicate NamesAsPredecessor(text: string, num: nat, hash: bytes) {
    exists piece :: '-' !in piece && Size(piece) == 64 && text == Decimal(num) + "-" + piece + "-" + Hex(hash)
  }

  lemma NextExactly(text: string, num: nat, hash: bytes)
    ensures IsNext(SplitAt(text, '-'), num, hash) <==> NamesAsPredecessor(text, num, hash)
  {
    var pieces := SplitAt(text, '-');
    if IsNext(pieces, num, hash) {
      SplitJoins(text, '-');
      JoinThree(pieces);
      assert text == Decimal(num) + "-" + pieces[1] + "-" + Hex(hash);
    }
    hide SplitAt, Decimal, Hex, Size;
    if piece :| '-' !in piece && Size(piece) == 64 && text == Decimal(num) + "-" + piece + "-" + Hex(hash) {
      PiecesOf(num, piece, hash);
    }
  }

  /** The texts accepted are the newest anchor's own and those that name it as their predecessor. */
  lemma AdmitsExactly(tip: Sealed, keys: Keys, loaded: Option<nat>, text: string, guid: nat)
    ensures Admit(tip, keys, loaded, text, guid).Ok? <==>
              && loaded.Some? && guid == tip.anchor.guid && loaded.value >= tip.anchor.txg
              && (|| text == Render(MarkerOf(tip.anchor))
                  || NamesAsPredecessor(text, (tip.anchor.num + 1) % U64, keys.digest(tip.encoded)))
    ensures Admit(tip, keys, loaded, text, guid) == Err(NoTxg) <==> loaded.None?
    ensures Admit(tip, keys, loaded, text, guid) == Err(OtherGuid) <==> loaded.Some? && guid != tip.anchor.guid
    ensures Admit(tip, keys, loaded, text, guid) == Err(Older) <==> loaded.Some? && guid == tip.anchor.guid && loaded.value < tip.anchor.txg
  {
    NextExactly(text, (tip.anchor.num + 1) % U64, keys.digest(tip.encoded));
    hide SplitAt, IsNext, NamesAsPredecessor, Render;
  }

  lemma JoinThree(pieces: seq<string>)
    requires |pieces| == 3
    ensures Join(pieces, '-') == pieces[0] + "-" + pieces[1] + "-" + pieces[2]
  {
    assert Join(pieces[1..][1..], '-') == pieces[2];
    assert Join(pieces[1..], '-') == pieces[1] + "-" + pieces[2];
  }

  lemma {:induction false} SizeOfAscii(s: string)
    requires forall i :: 0 <= i < |s| ==> s[i] as int < 0x80
    ensures Size(s) == |s|
  {
    if s != "" {
      SizeOfAscii(s[1..]);
    }
  }

  lemma RenderedIsNext(m: Marker<bytes>, num: nat, hash: bytes)
    requires Sized(m)
    ensures IsNext(SplitAt(Render(m), '-'), num, hash) <==> m.num == num && m.prev == hash
  {
    HexHasNoDash(m.nonce);
    PiecesOf(m.num, Hex(m.nonce), m.prev);
    SizeOfAscii(Hex(m.nonce));
    DecimalReads(m.num);
    DecimalReads(num);
    if Hex(m.prev) == Hex(hash) {
      HexInjective(m.prev, hash);
    }
    hide SplitAt, Decimal, Hex, Size, DecimalValue;
  }

  /** On a marker an enclave wrote, the decision is the one the protocol rests on. */
  lemma AdmitIsAdmits(tip: Sealed, keys: Keys, loaded: Option<nat>, m: Marker<bytes>, guid: nat)
    requires Sized(m) && tip.anchor.num + 1 < U64
    ensures Admit(tip, keys, loaded, Render(m), guid).Ok? <==>
              Admits(tip.anchor, keys.digest(tip.encoded), loaded, Some(m), guid)
  {
    hide SplitAt, IsNext, Render;
    RenderedIsNext(m, tip.anchor.num + 1, keys.digest(tip.encoded));
    if Render(m) == Render(MarkerOf(tip.anchor)) {
      RenderInjective(m, MarkerOf(tip.anchor));
    }
  }

  /** A pool that holds the marker written for an anchor is admitted by that anchor once it is published, and by the one
      before it until then. */
  lemma SealedAdmitted(keys: Keys, prev: Sealed, id: PoolIdentity, guid: nat, txg: nat, nonce: bytes, loaded: nat)
    requires Sound(keys) && |nonce| == 32
    ensures var s := Seal(keys, Some(prev), id, guid, txg, nonce);
            && (loaded >= prev.anchor.txg ==> Admit(prev, keys, Some(loaded), Render(MarkerOf(s.anchor)), prev.anchor.guid).Ok?)
            && (loaded >= txg ==> Admit(s, keys, Some(loaded), Render(MarkerOf(s.anchor)), guid).Ok?)
  {
    var s := Seal(keys, Some(prev), id, guid, txg, nonce);
    RenderedIsNext(MarkerOf(s.anchor), s.anchor.num, keys.digest(prev.encoded));
    hide SplitAt, IsNext, Render;
  }

  // ---- the transaction group an import loaded -----------------------------

  datatype Note = Using(txg: Option<nat>) | Loaded | Restarted | Other

  /** What the kernel's debug log says of a pool in one line. */
  function NoteOf(line: string, pool: string): Note {
    var rest := After(line, "spa_load(" + pool + ", config ");
    if rest.None? then Other
    else
      var note := After(rest.value, "): ");
      if note.None? then Other else NoteIn(Trim(note.value))
  }

  function NoteIn(note: string): Note {
    if "using uberblock with txg=" <= note then Using(ParseU64(note[|"using uberblock with txg="|..]))
    else if note == "LOADED" then Loaded
    else if note == "LOADING" || note == "UNLOADING" || "FAILED" <= note then Restarted
    else Other
  }

  /** What a line says of this pool: whatever follows the pool's tag, and the next `"): "` after it, trimmed. */
  ghost predicate Says(line: string, pool: string, note: string) {
    exists rest, tail ::
      Follows(line, "spa_load(" + pool + ", config ", rest) && Follows(rest, "): ", tail) && Trimmed(tail, note)
  }

  lemma SaysOnly(line: string, pool: string, note: string)
    ensures Says(line, pool, note) <==>
              var rest := After(line, "spa_load(" + pool + ", config ");
              rest.Some? && After(rest.value, "): ").Some? && note == Trim(After(rest.value, "): ").value)
  {
    var tag := "spa_load(" + pool + ", config ";
    hide Follows, Trimmed, After, Trim;
    if rest, tail :| Follows(line, tag, rest) && Follows(rest, "): ", tail) && Trimmed(tail, note) {
      AfterExactly(line, tag, rest);
      AfterExactly(rest, "): ", tail);
      TrimExactly(tail, note);
    }
    var found := After(line, tag);
    if found.Some? && After(found.value, "): ").Some? {
      var tail := After(found.value, "): ").value;
      AfterExactly(line, tag, found.value);
      AfterExactly(found.value, "): ", tail);
      TrimExactly(tail, Trim(tail));
    }
  }

  lemma NoteInExactly(note: string)
    ensures forall txg: Option<nat> :: NoteIn(note) == Using(txg) <==>
              exists numeral :: note == "using uberblock with txg=" + numeral && ParseU64(numeral) == txg
    ensures NoteIn(note) == Loaded <==> note == "LOADED"
    ensures NoteIn(note) == Restarted <==> note == "LOADING" || note == "UNLOADING" || exists why :: note == "FAILED" + why
  {
    hide ParseU64;
    if "using uberblock with txg=" <= note {
      assert note == "using uberblock with txg=" + note[|"using uberblock with txg="|..];
    } else if "FAILED" <= note {
      assert note == "FAILED" + note[|"FAILED"|..];
    }
    if why :| note == "FAILED" + why {
      assert note[0] == 'F' && "FAILED" <= note;
    }
  }

  lemma NoteSaid(line: string, pool: string) returns (note: Option<string>)
    ensures forall text :: Says(line, pool, text) <==> note == Some(text)
    ensures NoteOf(line, pool) == if note.Some? then NoteIn(note.value) else Other
  {
    var rest := After(line, "spa_load(" + pool + ", config ");
    note := None;
    if rest.Some? && After(rest.value, "): ").Some? {
      note := Some(Trim(After(rest.value, "): ").value));
    }
    forall text ensures Says(line, pool, text) <==> note == Some(text) {
      SaysOnly(line, pool, text);
    }
  }

  /** What each line counts for: the uberblock it names, a load that completed, one that started, stopped or failed. */
  lemma NoteExactly(line: string, pool: string)
    ensures forall txg: Option<nat> :: NoteOf(line, pool) == Using(txg) <==>
              exists numeral :: Says(line, pool, "using uberblock with txg=" + numeral) && ParseU64(numeral) == txg
    ensures NoteOf(line, pool) == Loaded <==> Says(line, pool, "LOADED")
    ensures NoteOf(line, pool) == Restarted <==>
              || Says(line, pool, "LOADING") || Says(line, pool, "UNLOADING") || exists why :: Says(line, pool, "FAILED" + why)
  {
    hide Says, NoteIn, NoteOf, ParseU64;
    var note := NoteSaid(line, pool);
    if note.Some? {
      NoteInExactly(note.value);
    }
  }

  /** The last load that completed, with nothing started or failed after it, and the uberblock it used:
      the last one named before it in the same load. */
  ghost predicate LoadedFrom(notes: seq<Note>, i: nat, j: nat) {
    && i < j < |notes| && notes[i].Using? && notes[j].Loaded?
    && (forall k :: i < k < j ==> !notes[k].Using?)
    && (forall k :: i < k < |notes| ==> !notes[k].Restarted?)
    && (forall k :: j < k < |notes| ==> !notes[k].Loaded?)
  }

  ghost predicate LoadNamed(notes: seq<Note>, txg: nat) {
    exists i: nat, j: nat :: LoadedFrom(notes, i, j) && notes[i] == Using(Some(txg))
  }

  function Notes(lines: seq<string>, pool: string): seq<Note> {
    seq(|lines|, i requires 0 <= i < |lines| => NoteOf(lines[i], pool))
  }

  datatype Load = Load(using: Option<nat>, loaded: Option<nat>)

  /** The log followed note by note. */
  function Follow(notes: seq<Note>): Load {
    if notes == [] then Load(None, None)
    else
      var before := Follow(notes[..|notes| - 1]);
      match notes[|notes| - 1]
      case Using(txg) => before.(using := txg)
      case Loaded => before.(loaded := before.using)
      case Restarted => Load(None, None)
      case Other => before
  }

  ghost predicate LastNamed(notes: seq<Note>, i: nat) {
    i < |notes| && notes[i].Using? && forall k :: i < k < |notes| ==> !notes[k].Using? && !notes[k].Restarted?
  }

  ghost predicate NowUsing(notes: seq<Note>, txg: nat) {
    exists i: nat :: LastNamed(notes, i) && notes[i] == Using(Some(txg))
  }

  lemma NowUsingStep(notes: seq<Note>, note: Note, txg: nat)
    ensures NowUsing(notes + [note], txg) <==>
              match note
              case Using(named) => named == Some(txg)
              case Restarted => false
              case _ => NowUsing(notes, txg)
  {
    var all := notes + [note];
    assert forall k :: 0 <= k < |notes| ==> notes[k] == all[k];
    if i: nat :| LastNamed(all, i) && all[i] == Using(Some(txg)) {
      if i < |notes| {
        assert LastNamed(notes, i) && !all[|notes|].Using? && !all[|notes|].Restarted?;
      }
    }
    if note == Using(Some(txg)) {
      assert LastNamed(all, |notes|);
    }
    if i: nat :| LastNamed(notes, i) && notes[i] == Using(Some(txg)) && !note.Using? && !note.Restarted? {
      assert LastNamed(all, i) && all[i] == notes[i];
    }
  }

  lemma LoadNamedStep(notes: seq<Note>, note: Note, txg: nat)
    ensures LoadNamed(notes + [note], txg) <==>
              match note
              case Loaded => NowUsing(notes, txg)
              case Restarted => false
              case _ => LoadNamed(notes, txg)
  {
    var all := notes + [note];
    assert forall k :: 0 <= k < |notes| ==> notes[k] == all[k];
    if i: nat, j: nat :| LoadedFrom(all, i, j) && all[i] == Using(Some(txg)) {
      assert !all[|notes|].Restarted?;
      if j == |notes| {
        assert LastNamed(notes, i);
      } else {
        assert LoadedFrom(notes, i, j) && !all[|notes|].Loaded?;
      }
    }
    if i: nat :| note.Loaded? && LastNamed(notes, i) && notes[i] == Using(Some(txg)) {
      assert LoadedFrom(all, i, |notes|) && all[i] == notes[i];
    }
    if i: nat, j: nat :| LoadedFrom(notes, i, j) && notes[i] == Using(Some(txg)) && !note.Loaded? && !note.Restarted? {
      assert LoadedFrom(all, i, j) && all[i] == notes[i];
    }
  }

  /** Following the log finds the uberblock of the load that stands, and nothing if none stands. */
  lemma {:induction false} FollowFinds(notes: seq<Note>, txg: nat)
    ensures Follow(notes).loaded == Some(txg) <==> LoadNamed(notes, txg)
    ensures Follow(notes).using == Some(txg) <==> NowUsing(notes, txg)
  {
    if notes != [] {
      var front, last := notes[..|notes| - 1], notes[|notes| - 1];
      FollowFinds(front, txg);
      NowUsingStep(front, last, txg);
      LoadNamedStep(front, last, txg);
      assert front + [last] == notes;
    }
  }

  /** The transaction group of the pool as imported, as the log has it: only the load that stands counts. */
  method LoadedTxg(lines: seq<string>, pool: string) returns (loaded: Option<nat>)
    ensures forall txg: nat :: loaded == Some(txg) <==> LoadNamed(Notes(lines, pool), txg)
  {
    var using: Option<nat> := None;
    loaded := None;
    ghost var notes := Notes(lines, pool);
    for n := 0 to |lines|
      invariant Load(using, loaded) == Follow(notes[..n])
    {
      assert notes[..n + 1][..n] == notes[..n];
      match NoteOf(lines[n], pool) {
        case Using(txg) => using := txg;
        case Loaded => loaded := using;
        case Restarted => using, loaded := None, None;
        case Other =>
      }
    }
    assert notes[..|lines|] == notes;
    forall txg: nat {
      FollowFinds(notes, txg);
    }
  }
}
