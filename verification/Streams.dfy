/** Standing connections: the records that ask for them, and the supervisors that hold them. */
module Streams {
  import opened Wrappers

  datatype Key = Key(tenant: nat, id: string)

  /** One standing instruction. The generation tells an open from an earlier one of the same id and origin. */
  datatype Record = Record(key: Key, origin: string, generation: nat)

  datatype StreamError = BadId | BadOrigin | OpenElsewhere | TooMany | NotWritten

  const PER_TENANT: nat := 8

  type Records = map<Key, Record>

  ghost predicate RecordsOk(records: Records) {
    forall k :: k in records ==> records[k].key == k
  }

  function HeldBy(records: Records, tenant: nat): set<Key> {
    set k | k in records && k.tenant == tenant
  }

  predicate ValidId(id: string) {
    1 <= |id| <= 64 && forall i :: 0 <= i < |id| ==> IdChar(id[i])
  }

  predicate IdChar(c: char) {
    'a' <= c <= 'z' || 'A' <= c <= 'Z' || '0' <= c <= '9' || c == '_' || c == '-'
  }

  /** What an open meets: nothing yet, the same instruction, or a reason to refuse. */
  datatype Met = New | Standing | Refused(error: StreamError)

  function Meets(records: Records, key: Key, origin: string): Met {
    if key in records then
      if records[key].origin == origin then Standing else Refused(OpenElsewhere)
    else if |HeldBy(records, key.tenant)| < PER_TENANT then New
    else Refused(TooMany)
  }

  /** The records after a new instruction is taken. */
  function Opened(records: Records, key: Key, origin: string, generation: nat): Records {
    records[key := Record(key, origin, generation)]
  }

  /** The records after an instruction is withdrawn, if it stood. */
  function Closed(records: Records, key: Key): Records {
    records - {key}
  }

  class StreamRegistry {
    var records: Records
    var generations: nat
    var permit: bool

    /** The first generation given out is above that of every record read back from the disk, which is zero. */
    constructor (loaded: Records)
      ensures records == loaded && generations == 1 && !permit
    {
      records, generations, permit := loaded, 1, false;
    }

    /** Ask for a connection: the same instruction again changes nothing, another origin under a standing id is
        refused, and only a new record wakes the supervisor. `origin` has been parsed and `written` says whether
        its record reached the disk. */
    method Open(key: Key, origin: Option<string>, written: bool) returns (r: Result<(), StreamError>)
      modifies this
      ensures r.Err? <==>
                || !ValidId(key.id) || origin.None?
                || Meets(old(records), key, origin.value).Refused?
                || (Meets(old(records), key, origin.value).New? && !written)
      ensures var opens := r.Ok? && Meets(old(records), key, origin.value).New?;
              && records == (if opens then Opened(old(records), key, origin.value, old(generations)) else old(records))
              && permit == (opens || old(permit))
      ensures generations == old(generations) +
                if ValidId(key.id) && origin.Some? && Meets(old(records), key, origin.value).New? then 1 else 0
      ensures var room := |set k | k in old(records) && k.tenant == key.tenant| < 8;
              var askable := ValidId(key.id) && origin.Some?;
              && (r == Err(OpenElsewhere) <==> askable && key in old(records) && old(records)[key].origin != origin.value)
              && (r == Err(TooMany) <==> askable && key !in old(records) && !room)
              && (r.Ok? <==> askable && if key in old(records) then old(records)[key].origin == origin.value else room && written)
              && (r.Err? || key in old(records) ==> records == old(records) && permit == old(permit))
              && (r.Ok? && key !in old(records) ==>
                    records == old(records)[key := Record(key, origin.value, old(generations))] && permit)
    {
      assert HeldBy(records, key.tenant) == set k | k in records && k.tenant == key.tenant;
      if !ValidId(key.id) {
        return Err(BadId);
      }
      if origin.None? {
        return Err(BadOrigin);
      }
      if key in records {
        if records[key].origin != origin.value {
          return Err(OpenElsewhere);
        }
        return Ok(());
      }
      if |HeldBy(records, key.tenant)| >= PER_TENANT {
        return Err(TooMany);
      }
      var record := Record(key, origin.value, generations);
      generations := generations + 1;
      if !written {
        return Err(NotWritten);
      }
      records := records[key := record];
      permit := true;
      return Ok(());
    }

    /** Withdraw an instruction. A record whose file will not go is forgotten here all the same, but wakes nobody. */
    method Close(key: Key, removed: bool) returns (r: Result<(), StreamError>)
      modifies this
      ensures records == Closed(old(records), key) && generations == old(generations)
      ensures r.Err? <==> key in old(records) && !removed
      ensures permit == (r.Ok? || old(permit))
    {
      var standing := key in records;
      records := records - {key};
      if standing && !removed {
        return Err(NotWritten);
      }
      permit := true;
      return Ok(());
    }
  }

  // ---- supervisors --------------------------------------------------------

  /** A supervisor started for a record; the handle names the task. */
  datatype Task = Task(record: Record, handle: nat)

  /** Supervisors by key, and the tasks still running. */
  datatype Crew = Crew(live: map<Key, Task>, running: map<nat, Record>, next: nat)

  /** Every task that runs is the one its record's key names: none was replaced or dropped without being stopped. */
  ghost predicate CrewOk(c: Crew) {
    && (forall k :: k in c.live ==> c.live[k].record.key == k && c.live[k].handle < c.next)
    && (forall k :: k in c.live && c.live[k].handle in c.running ==> c.running[c.live[k].handle] == c.live[k].record)
    && (forall h :: h in c.running ==>
        c.running[h].key in c.live && c.live[c.running[h].key] == Task(c.running[h], h))
  }

  /** A supervisor running for each record, as it stands, and none besides. */
  ghost predicate Staffed(c: Crew, records: Records) {
    && CrewOk(c) && c.live.Keys == records.Keys
    && forall k :: k in records ==> c.live[k].record == records[k] && c.live[k].handle in c.running
  }

  ghost predicate Serves(c: Crew, k: Key, record: Record) {
    k in c.live && c.live[k].record == record && c.live[k].handle in c.running
  }

  /** Who is running is who was, or was started since; and whoever served a standing record was left alone. */
  ghost predicate Follows(before: Crew, after: Crew, records: Records) {
    && before.next <= after.next
    && (forall h :: h in after.running && h < before.next ==> h in before.running && after.running[h] == before.running[h])
    && forall k :: k in records && Serves(before, k, records[k]) ==>
        Serves(after, k, records[k]) && after.live[k] == before.live[k]
  }

  /** The records under the lock, listed. */
  ghost predicate Lists(wanted: seq<Record>, records: Records) {
    && (forall i :: 0 <= i < |wanted| ==> wanted[i].key in records && records[wanted[i].key] == wanted[i])
    && forall k :: k in records ==> records[k] in wanted
  }

  ghost function StoppedFor(c: Crew, key: Key): map<nat, Record> {
    if key in c.live then c.running - {c.live[key].handle} else c.running
  }

  ghost function Started(c: Crew, record: Record): Crew {
    Crew(c.live[record.key := Task(record, c.next)], StoppedFor(c, record.key)[c.next := record], c.next + 1)
  }

  lemma StartedOk(c: Crew, record: Record)
    requires CrewOk(c)
    ensures CrewOk(Started(c, record))
  {
    assert forall h :: h in c.running ==> h < c.next;
  }

  /** Starting one supervisor leaves every other key's as it was. */
  lemma StartedFollows(first: Crew, c: Crew, record: Record, records: Records)
    requires CrewOk(first) && CrewOk(c) && Follows(first, c, records)
    requires record.key in records && records[record.key] == record && !Serves(c, record.key, record)
    ensures Follows(first, Started(c, record), records)
    ensures Serves(Started(c, record), record.key, record)
    ensures forall k :: k != record.key && k in c.live ==> Started(c, record).live[k] == c.live[k]
    ensures forall k, r :: k != record.key && Serves(c, k, r) ==> Serves(Started(c, record), k, r)
  {
    var after := Started(c, record);
    assert forall h :: h in c.running ==> h < c.next;
    forall k, r | k != record.key && Serves(c, k, r) ensures Serves(after, k, r) {
      assert c.running[c.live[k].handle].key == k;
    }
  }

  ghost function Dropped(c: Crew, key: Key): Crew
    requires key in c.live
  {
    Crew(c.live - {key}, c.running - {c.live[key].handle}, c.next)
  }

  lemma DroppedOk(first: Crew, c: Crew, key: Key, records: Records)
    requires CrewOk(c) && Follows(first, c, records) && key in c.live && key !in records
    ensures CrewOk(Dropped(c, key)) && Follows(first, Dropped(c, key), records)
    ensures forall k, r :: k != key && Serves(c, k, r) ==> Serves(Dropped(c, key), k, r)
  {
  }

  class Supervisors {
    var crew: Crew

    constructor ()
      ensures crew == Crew(map[], map[], 0)
    {
      crew := Crew(map[], map[], 0);
    }

    /** Start a task for a record, stopping whichever its key named. */
    method Start(record: Record)
      modifies this
      ensures crew == Started(old(crew), record)
    {
      var running := crew.running;
      if record.key in crew.live {
        running := running - {crew.live[record.key].handle};
      }
      crew := Crew(crew.live[record.key := Task(record, crew.next)], running[crew.next := record], crew.next + 1);
    }

    /** Stop the task of a key nothing asks for. */
    method Drop(key: Key)
      requires key in crew.live
      modifies this
      ensures crew == Dropped(old(crew), key)
    {
      crew := Crew(crew.live - {key}, crew.running - {crew.live[key].handle}, crew.next);
    }

    /** Start what is new, and restart what changed. */
    method StartWanted(wanted: seq<Record>, ghost records: Records)
      requires CrewOk(crew) && Lists(wanted, records) && RecordsOk(records)
      modifies this
      ensures CrewOk(crew) && Follows(old(crew), crew, records)
      ensures forall k :: k in records ==> Serves(crew, k, records[k])
    {
      ghost var first := crew;
      for i := 0 to |wanted|
        invariant CrewOk(crew) && Follows(first, crew, records)
        invariant forall j :: 0 <= j < i ==> Serves(crew, wanted[j].key, wanted[j])
      {
        var record := wanted[i];
        var served := record.key in crew.live && crew.live[record.key].record == record && crew.live[record.key].handle in crew.running;
        if !served {
          StartedOk(crew, record);
          StartedFollows(first, crew, record, records);
          Start(record);
        }
      }
    }

    /** Stop what is no longer asked for. */
    method StopUnwanted(wanted: seq<Record>, ghost first: Crew, ghost records: Records)
      requires CrewOk(crew) && Lists(wanted, records) && RecordsOk(records) && Follows(first, crew, records)
      requires forall k :: k in records ==> Serves(crew, k, records[k])
      modifies this
      ensures Staffed(crew, records) && Follows(first, crew, records)
    {
      hide CrewOk, Follows;
      var unwanted := set k | k in crew.live && forall i :: 0 <= i < |wanted| ==> wanted[i].key != k;
      Unwanted(wanted, records, crew.live.Keys, unwanted);
      while unwanted != {}
        invariant CrewOk(crew) && Follows(first, crew, records)
        invariant forall k :: k in records ==> Serves(crew, k, records[k])
        invariant unwanted == crew.live.Keys - records.Keys
        decreases unwanted
      {
        var key :| key in unwanted;
        DroppedOk(first, crew, key, records);
        Drop(key);
        unwanted := unwanted - {key};
      }
      assert crew.live.Keys == records.Keys by {
        assert forall k :: k in records ==> Serves(crew, k, records[k]);
        assert forall k :: k in crew.live.Keys ==> k in records.Keys by {
          assert crew.live.Keys - records.Keys == {};
          assert forall k :: k in crew.live.Keys && k !in records.Keys ==> k in crew.live.Keys - records.Keys;
        }
      }
    }

    /** One pass over the records as they were listed: afterwards exactly those are supervised, each by a task
        started for it as it stands, and no task that already was has been disturbed. */
    method Reconcile(wanted: seq<Record>, ghost records: Records)
      requires CrewOk(crew) && Lists(wanted, records) && RecordsOk(records)
      modifies this
      ensures Staffed(crew, records) && Follows(old(crew), crew, records)
    {
      hide CrewOk, Staffed, Follows, Lists, RecordsOk;
      ghost var first := crew;
      StartWanted(wanted, records);
      StopUnwanted(wanted, first, records);
    }
  }

  lemma Unwanted(wanted: seq<Record>, records: Records, keys: set<Key>, unwanted: set<Key>)
    requires Lists(wanted, records) && RecordsOk(records)
    requires unwanted == set k | k in keys && forall i :: 0 <= i < |wanted| ==> wanted[i].key != k
    ensures unwanted == keys - records.Keys
  {
  }

  /** A pass can always be made: from any crew in order there is one, staffed for these records, that follows it. */
  lemma PassExists(before: Crew, records: Records) returns (after: Crew)
    requires CrewOk(before) && RecordsOk(records)
    ensures Staffed(after, records) && Follows(before, after, records)
  {
    hide CrewOk, Follows, RecordsOk;
    after := before;
    var todo := records.Keys;
    while todo != {}
      invariant todo <= records.Keys && CrewOk(after) && (Follows(before, after, records) || after == before)
      invariant forall k :: k in records && k !in todo ==> Serves(after, k, records[k])
      decreases todo
    {
      var k :| k in todo;
      KeyOfRecord(records, k);
      FollowsItself(before, records);
      if !Serves(after, k, records[k]) {
        StartedOk(after, records[k]);
        StartedFollows(before, after, records[k], records);
        after := Started(after, records[k]);
      }
      todo := todo - {k};
    }
    FollowsItself(before, records);
    var unwanted := after.live.Keys - records.Keys;
    while unwanted != {}
      invariant CrewOk(after) && Follows(before, after, records)
      invariant forall k :: k in records ==> Serves(after, k, records[k])
      invariant unwanted == after.live.Keys - records.Keys
      decreases unwanted
    {
      var k :| k in unwanted;
      DroppedOk(before, after, k, records);
      after := Dropped(after, k);
      unwanted := unwanted - {k};
    }
    assert after.live.Keys == records.Keys by {
      assert forall k :: k in records ==> Serves(after, k, records[k]);
      assert forall k :: k in after.live.Keys && k !in records.Keys ==> k in after.live.Keys - records.Keys;
    }
  }

  lemma KeyOfRecord(records: Records, k: Key)
    requires RecordsOk(records) && k in records
    ensures records[k].key == k
  {
  }

  lemma FollowsItself(c: Crew, records: Records)
    ensures Follows(c, c, records)
  {
  }
}
