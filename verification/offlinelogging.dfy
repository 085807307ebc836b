/** The backlog file: a line-oriented FIFO of batches of readings.

    The file is an optional sequence of lines: `None` when it does not exist
    (absence is the "no backlog" signal), otherwise its lines without their
    `'\n'` terminators.  Each line is one `name,value,description` record and a
    batch is one record per active port, so the batch size is always taken from
    the port table currently configured. */
module OfflineLogging {
  import opened Basics
  import opened CStrings
  import opened FloatText
  import opened Structs

  type Store = Option<seq<string>>

  function Lines(store: Store): seq<string> {
    if store.Some? then store.value else []
  }

  /** The lines that disappeared from the front of `before`. */
  function Removed(before: Store, after: Store): seq<string>
    requires |Lines(after)| <= |Lines(before)|
  {
    Lines(before)[..|Lines(before)| - |Lines(after)|]
  }

  // ---------------------------------------------------------------------------
  // Record format

  /** The `"%s,%f,%s"` record written for one port. */
  function RecordLine(p: PortInfo): string {
    p.name + "," + FormatF(p.value) + "," + p.description
  }

  /** The records one dump writes: one per active port, in table order. */
  function Records(ports: seq<PortInfo>): (r: seq<string>)
    ensures |r| == ActiveCount(ports)
    ensures forall j :: 0 <= j < |r| ==> r[j] == RecordLine(ActivePorts(ports)[j])
  {
    var act := ActivePorts(ports);
    seq(|act|, j requires 0 <= j < |act| => RecordLine(act[j]))
  }

  /** One record parsed as `getSensorDataFromFile` does: three `strtok` calls on
      `","`, `","` and `"\n"`; a `NULL` token (None) is a crash in the
      firmware.  The entry is a default port with the name, value, description
      and a multiplier of 1. */
  function ParseRecord(line: string): (r: Option<PortInfo>)
    ensures r.Some? ==> r.value.multiplier == 1.0 && IsActive(r.value)
    ensures r.Some? ==> |r.value.name| > 0 && |r.value.description| > 0
  {
    var name :- Strtok(line, {','});
    var number :- Strtok(name.rest, {','});
    var desc :- Strtok(number.rest, {'\n'});
    Some(PortInfo(name.text, ParseF(number.text), desc.text, 1.0, 0, 0.0, 0.0))
  }

  /** The entry the backlog gives back for a port it stored. */
  function ReadBack(p: PortInfo): PortInfo {
    PortInfo(p.name, Round6(p.value), p.description, 1.0, 0, 0.0, 0.0)
  }

  function ReadBackAll(ports: seq<PortInfo>): (r: seq<PortInfo>)
    ensures |r| == |ports|
    ensures forall i :: 0 <= i < |r| ==> r[i] == ReadBack(ports[i])
  {
    seq(|ports|, i requires 0 <= i < |ports| => ReadBack(ports[i]))
  }

  /** A record written for a record-safe port parses back to its name, its
      value rounded to six decimals and its description. */
  lemma ParseRecordLine(p: PortInfo)
    requires RecordSafe(p)
    ensures ParseRecord(RecordLine(p)) == Some(ReadBack(p))
  {
    var v := FormatF(p.value);
    assert RecordLine(p) == p.name + [','] + (v + "," + p.description);
    StrtokField(p.name, ',', v + "," + p.description, {','});
    assert v + "," + p.description == v + [','] + p.description;
    StrtokField(v, ',', p.description, {','});
    StrtokLast(p.description, {'\n'});
    ParseFormat(p.value);
  }

  function ParseLines(lines: seq<string>): (r: Option<seq<PortInfo>>)
    ensures r.Some? <==> forall i :: 0 <= i < |lines| ==> ParseRecord(lines[i]).Some?
    ensures r.Some? ==> |r.value| == |lines|
    ensures r.Some? ==> forall i :: 0 <= i < |lines| ==> ParseRecord(lines[i]) == Some(r.value[i])
  {
    if |lines| == 0 then Some([])
    else
      match ParseRecord(lines[0])
      case None => None
      case Some(p) =>
        match ParseLines(lines[1..])
        case None => None
        case Some(ps) => Some([p] + ps)
  }

  // ---------------------------------------------------------------------------
  // The four operations

  /** `dumpSensorDataToFile`: appends one record per active port.  An absent
      file is created first; if it cannot be (`created` false) nothing is
      written. */
  function DumpSensorDataToFile(store: Store, ports: seq<PortInfo>, created: bool): (r: Store)
    ensures store.None? && !created ==> r == None
    ensures store.Some? || created ==> r.Some?
    ensures r.Some? ==> |r.value| == |Lines(store)| + ActiveCount(ports)
    ensures r.Some? ==> r.value[..|Lines(store)|] == Lines(store)
    ensures r.Some? ==> forall j :: 0 <= j < ActiveCount(ports) ==>
      r.value[|Lines(store)| + j] == RecordLine(ActivePorts(ports)[j])
  {
    if store.None? && !created then None
    else
      var r := Lines(store) + Records(ports);
      assert r[..|Lines(store)|] == Lines(store);
      Some(r)
  }

  /** Result of `deleteDataEntry`: the returned flag and the file afterwards. */
  datatype Deletion = Deletion(more: bool, store: Store)

  /** `deleteDataEntry`: skips one batch (N lines, N the active-port count);
      when no line follows it the file is removed and false returned,
      otherwise the rest is copied to the temporary file, which replaces the
      original, and true returned.  When the temporary file cannot be opened
      (`tempOpened` false) the call still returns true and changes nothing. */
  function DeleteDataEntry(store: Store, ports: seq<PortInfo>, tempOpened: bool): (r: Deletion)
    ensures !r.more <==> r.store.None?
    ensures store.None? ==> !r.more
    ensures store.Some? ==> (r.more <==> |store.value| > ActiveCount(ports))
    ensures |Lines(r.store)| <= |Lines(store)|
    ensures Lines(r.store) == Lines(store)[|Lines(store)| - |Lines(r.store)|..]
    ensures |Lines(store)| - |Lines(r.store)| <= ActiveCount(ports)
    ensures r.more ==> |Lines(r.store)| == |Lines(store)| - (if tempOpened then ActiveCount(ports) else 0)
  {
    if store.None? then Deletion(false, None)
    else
      var n := ActiveCount(ports);
      var lines := store.value;
      if |lines| <= n then Deletion(false, None)
      else if !tempOpened then Deletion(true, store)
      else Deletion(true, Some(lines[n..]))
  }

  /** `getSensorDataFromFile`: the entries of the oldest batch, read without
      changing the file; empty when the file is absent.  None stands for the
      firmware reading past the end of the file or dereferencing a missing
      field. */
  function GetSensorDataFromFile(store: Store, ports: seq<PortInfo>): (r: Option<seq<PortInfo>>)
    ensures store.None? ==> r == Some([])
    ensures store.Some? ==>
      (r.Some? <==> |store.value| >= ActiveCount(ports)
                    && forall i :: 0 <= i < ActiveCount(ports) ==> ParseRecord(store.value[i]).Some?)
    ensures store.Some? && r.Some? ==> |r.value| == ActiveCount(ports)
    ensures store.Some? && r.Some? ==> forall i :: 0 <= i < |r.value| ==>
      Some(r.value[i]) == ParseRecord(store.value[i]) && r.value[i].multiplier == 1.0
  {
    if store.None? then Some([])
    else
      var n := ActiveCount(ports);
      if |store.value| < n then None
      else
        var lines := store.value[..n];
        assert forall i | 0 <= i < n :: lines[i] == store.value[i];
        ParseLines(lines)
  }

  /** `checkForBackupFile`. */
  function CheckForBackupFile(store: Store): (present: bool)
    ensures present <==> store.Some?
  {
    store.Some?
  }

  // ---------------------------------------------------------------------------
  // Well-formed backlogs

  /** A backlog the polling loop can always read: every line parses and the
      lines form whole batches of `n`, at least one of them (with no active
      ports, only an empty file). */
  predicate WellFormed(store: Store, n: nat) {
    store.None? ||
    ((if n == 0 then |store.value| == 0 else |store.value| > 0 && WholeBatches(|store.value|, n))
     && AllParse(store.value))
  }

  /** Every line is a record `getSensorDataFromFile` can read. */
  predicate AllParse(lines: seq<string>) {
    forall i :: 0 <= i < |lines| ==> ParseRecord(lines[i]).Some?
  }

  lemma AllParseAppend(a: seq<string>, b: seq<string>)
    requires AllParse(a) && AllParse(b)
    ensures AllParse(a + b)
  {
    var ab := a + b;
    forall i | 0 <= i < |ab| ensures ParseRecord(ab[i]).Some? {
      if i < |a| {
        assert ab[i] == a[i];
      } else {
        assert ab[i] == b[i - |a|];
      }
    }
  }

  /** `k` lines make up whole batches of `n`. */
  predicate WholeBatches(k: nat, n: nat)
    requires n > 0
    decreases k
  {
    k == 0 || (k >= n && WholeBatches(k - n, n))
  }

  lemma {:induction false} RecordsParse(ports: seq<PortInfo>)
    requires ActiveRecordSafe(ports)
    ensures forall j :: 0 <= j < |Records(ports)| ==>
      ParseRecord(Records(ports)[j]) == Some(ReadBack(ActivePorts(ports)[j]))
  {
    forall j | 0 <= j < |Records(ports)|
      ensures ParseRecord(Records(ports)[j]) == Some(ReadBack(ActivePorts(ports)[j]))
    {
      var p := ActivePorts(ports)[j];
      assert p in ports;
      ParseRecordLine(p);
    }
  }

  lemma {:induction false} AppendBatchKeepsWellFormed(store: Store, batch: seq<string>, n: nat)
    requires WellFormed(store, n)
    requires |batch| == n
    requires AllParse(batch)
    ensures WellFormed(Some(Lines(store) + batch), n)
  {
    AllParseAppend(Lines(store), batch);
    if n > 0 {
      assert WholeBatches(|Lines(store)| + n, n);
    }
  }

  /** Appending a batch of record-safe ports keeps a backlog well formed. */
  lemma {:induction false} DumpKeepsWellFormed(store: Store, ports: seq<PortInfo>, created: bool)
    requires WellFormed(store, ActiveCount(ports))
    requires ActiveRecordSafe(ports)
    ensures WellFormed(DumpSensorDataToFile(store, ports, created), ActiveCount(ports))
  {
    if store.Some? || created {
      RecordsParse(ports);
      AppendBatchKeepsWellFormed(store, Records(ports), ActiveCount(ports));
    }
  }

  /** Deleting a batch keeps a backlog well formed. */
  lemma {:induction false} DeleteKeepsWellFormed(store: Store, ports: seq<PortInfo>, tempOpened: bool)
    requires WellFormed(store, ActiveCount(ports))
    ensures WellFormed(DeleteDataEntry(store, ports, tempOpened).store, ActiveCount(ports))
  {
    var n := ActiveCount(ports);
    var r := DeleteDataEntry(store, ports, tempOpened);
    if r.store.Some? && tempOpened {
      var lines := store.value;
      assert r.store.value == lines[n..];
      DropBatchKeepsWellFormed(lines, n);
    }
  }

  /** Dropping the oldest of several batches leaves whole parseable batches. */
  lemma DropBatchKeepsWellFormed(lines: seq<string>, n: nat)
    requires WellFormed(Some(lines), n)
    requires |lines| > n
    ensures WellFormed(Some(lines[n..]), n)
  {
    assert n > 0;
    assert WholeBatches(|lines[n..]|, n);
    forall i | 0 <= i < |lines| - n ensures ParseRecord(lines[n..][i]).Some? {
      assert lines[n..][i] == lines[i + n];
    }
  }

  /** In a well-formed backlog the oldest batch can always be read. */
  lemma WellFormedReadable(store: Store, ports: seq<PortInfo>)
    requires WellFormed(store, ActiveCount(ports))
    ensures GetSensorDataFromFile(store, ports).Some?
  {
    if store.Some? && ActiveCount(ports) > 0 {
      var n := ActiveCount(ports);
      assert |store.value| >= n;
    }
  }

  /** In a well-formed backlog the oldest batch is its first N lines. */
  lemma OldestIsPrefix(backlog: Store, ports: seq<PortInfo>)
    requires WellFormed(backlog, ActiveCount(ports)) && backlog.Some?
    ensures |backlog.value| >= ActiveCount(ports)
    ensures GetSensorDataFromFile(backlog, ports) == ParseLines(backlog.value[..ActiveCount(ports)])
  {
    WellFormedReadable(backlog, ports);
  }

  /** On a well-formed backlog a deletion removes nothing or exactly the
      oldest batch: the lines `getSensorDataFromFile` reads. */
  lemma DeletionSplitsBacklog(backlog: Store, ports: seq<PortInfo>, tempOpened: bool)
    requires WellFormed(backlog, ActiveCount(ports)) && backlog.Some?
    ensures var after := DeleteDataEntry(backlog, ports, tempOpened).store;
      && |Lines(after)| <= |Lines(backlog)|
      && Lines(backlog) == Removed(backlog, after) + Lines(after)
      && (|Removed(backlog, after)| == 0 || |Removed(backlog, after)| == ActiveCount(ports))
      && (|Removed(backlog, after)| > 0 ==>
            GetSensorDataFromFile(backlog, ports) == ParseLines(Removed(backlog, after)))
  {
    var n := ActiveCount(ports);
    var lines := backlog.value;
    OldestIsPrefix(backlog, ports);
    var after := DeleteDataEntry(backlog, ports, tempOpened).store;
    FrontSplit(backlog, after);
    var k := |Removed(backlog, after)|;
    assert k == 0 || k == n by {
      if |lines| <= n { assert Lines(after) == []; } else if tempOpened { assert k == n; } else { assert k == 0; }
    }
  }

  /** A store that keeps a suffix of another is that other minus its front. */
  lemma FrontSplit(before: Store, after: Store)
    requires |Lines(after)| <= |Lines(before)|
    requires Lines(after) == Lines(before)[|Lines(before)| - |Lines(after)|..]
    ensures Lines(before) == Removed(before, after) + Lines(after)
  {
    var lines := Lines(before);
    assert lines == lines[..|lines| - |Lines(after)|] + lines[|lines| - |Lines(after)|..];
  }

  // ---------------------------------------------------------------------------
  // FIFO round trip

  /** The records of several dumps, oldest first. */
  function AllRecords(tables: seq<seq<PortInfo>>): seq<string>
  {
    if |tables| == 0 then [] else Records(tables[0]) + AllRecords(tables[1..])
  }

  /** Successive successful dumps of the given port tables. */
  function DumpAll(store: Store, tables: seq<seq<PortInfo>>): Store
    decreases |tables|
  {
    if |tables| == 0 then store
    else DumpAll(DumpSensorDataToFile(store, tables[0], true), tables[1..])
  }

  /** Dumps only ever append: after them the file holds the old lines followed
      by every batch's records in dump order. */
  lemma {:induction false} DumpAllAppends(store: Store, tables: seq<seq<PortInfo>>)
    requires store.Some? || |tables| > 0
    ensures DumpAll(store, tables) == Some(Lines(store) + AllRecords(tables))
    decreases |tables|
  {
    if |tables| > 0 {
      var next := DumpSensorDataToFile(store, tables[0], true);
      assert next == Some(Lines(store) + Records(tables[0]));
      DumpAllAppends(next, tables[1..]);
      ConcatAssoc(Lines(store), Records(tables[0]), AllRecords(tables[1..]));
    } else {
      assert Lines(store) + [] == Lines(store);
    }
  }

  /** Reading the oldest batch of a backlog that begins with the records of a
      batch of the same size gives that batch back. */
  lemma {:induction false} ReadOldestBatch(batch: seq<PortInfo>, rest: seq<string>, ports: seq<PortInfo>)
    requires ActiveCount(batch) == ActiveCount(ports)
    requires ActiveRecordSafe(batch)
    ensures GetSensorDataFromFile(Some(Records(batch) + rest), ports)
            == Some(ReadBackAll(ActivePorts(batch)))
  {
    var lines := Records(batch) + rest;
    var n := ActiveCount(ports);
    RecordsParse(batch);
    assert forall i :: 0 <= i < n ==> lines[i] == Records(batch)[i];
    var r := GetSensorDataFromFile(Some(lines), ports);
    assert r.Some?;
    forall i | 0 <= i < n ensures r.value[i] == ReadBack(ActivePorts(batch)[i]) {
      assert Some(r.value[i]) == ParseRecord(lines[i]);
    }
    assert r.value == ReadBackAll(ActivePorts(batch));
  }

  /** Alternately reading and deleting the oldest batch until `deleteDataEntry`
      returns false, as the drain loop does when every send succeeds; the
      batches read, oldest first.  None if a read fails. */
  function Replay(store: Store, ports: seq<PortInfo>): Option<seq<seq<PortInfo>>>
    requires ActiveCount(ports) > 0
    decreases |Lines(store)|
  {
    if store.None? then Some([])
    else
      var batch :- GetSensorDataFromFile(store, ports);
      var d := DeleteDataEntry(store, ports, true);
      if !d.more then Some([batch])
      else
        var rest :- Replay(d.store, ports);
        Some([batch] + rest)
  }

  /** The entries each batch of `tables` reads back as, oldest first. */
  function ReadBacks(tables: seq<seq<PortInfo>>): (r: seq<seq<PortInfo>>)
    ensures |r| == |tables|
    ensures forall i :: 0 <= i < |tables| ==> r[i] == ReadBackAll(ActivePorts(tables[i]))
  {
    seq(|tables|, i requires 0 <= i < |tables| => ReadBackAll(ActivePorts(tables[i])))
  }

  /** FIFO round trip: after dumping k batches (same active-port count, k >= 1)
      into an absent file, replaying reads back exactly those k batches in dump
      order; since Replay stops at the first false return, the first k - 1
      deletions returned true and the k-th removed the file. */
  lemma {:induction false} FifoRoundTrip(tables: seq<seq<PortInfo>>, ports: seq<PortInfo>)
    requires ActiveCount(ports) > 0
    requires forall i :: 0 <= i < |tables| ==>
      ActiveCount(tables[i]) == ActiveCount(ports) && ActiveRecordSafe(tables[i])
    ensures Replay(DumpAll(None, tables), ports) == Some(ReadBacks(tables))
  {
    if |tables| > 0 {
      DumpAllAppends(None, tables);
      assert Lines(None) + AllRecords(tables) == AllRecords(tables);
      ReplayRecords(tables, ports);
    }
  }

  /** One round of Replay on a backlog whose oldest batch reads as `batch`. */
  lemma ReplayStep(lines: seq<string>, ports: seq<PortInfo>, batch: seq<PortInfo>, rest: seq<seq<PortInfo>>)
    requires ActiveCount(ports) > 0
    requires GetSensorDataFromFile(Some(lines), ports) == Some(batch)
    ensures |lines| <= ActiveCount(ports) ==> Replay(Some(lines), ports) == Some([batch])
    ensures |lines| > ActiveCount(ports) && Replay(Some(lines[ActiveCount(ports)..]), ports) == Some(rest) ==>
      Replay(Some(lines), ports) == Some([batch] + rest)
  {
  }

  lemma ReadBacksCons(tables: seq<seq<PortInfo>>)
    requires |tables| > 0
    ensures ReadBacks(tables) == [ReadBackAll(ActivePorts(tables[0]))] + ReadBacks(tables[1..])
  {
    var r := [ReadBackAll(ActivePorts(tables[0]))] + ReadBacks(tables[1..]);
    forall i | 0 <= i < |tables| ensures ReadBacks(tables)[i] == r[i] {
      if i > 0 {
        assert tables[1..][i - 1] == tables[i];
      }
    }
  }

  /** Replaying the records of a single batch reads that batch. */
  lemma ReplayOne(t0: seq<PortInfo>, ports: seq<PortInfo>)
    requires ActiveCount(ports) > 0
    requires ActiveCount(t0) == ActiveCount(ports) && ActiveRecordSafe(t0)
    ensures Replay(Some(AllRecords([t0])), ports) == Some(ReadBacks([t0]))
  {
    var lines := AllRecords([t0]);
    assert [t0][0] == t0 && [t0][1..] == [];
    assert AllRecords([t0][1..]) == [];
    assert lines == Records(t0) + [];
    ReadOldestBatch(t0, [], ports);
    ReplayStep(lines, ports, ReadBackAll(ActivePorts(t0)), []);
    assert ReadBacks([t0]) == [ReadBackAll(ActivePorts(t0))];
  }

  /** Replaying the records of a batch followed by others reads that batch,
      then what replaying the others reads. */
  lemma ReplayCons(t0: seq<PortInfo>, rest: seq<seq<PortInfo>>, ports: seq<PortInfo>)
    requires ActiveCount(ports) > 0 && |rest| > 0
    requires ActiveCount(t0) == ActiveCount(ports) && ActiveRecordSafe(t0)
    requires ActiveCount(rest[0]) == ActiveCount(ports)
    requires Replay(Some(AllRecords(rest)), ports) == Some(ReadBacks(rest))
    ensures Replay(Some(AllRecords([t0] + rest)), ports) == Some(ReadBacks([t0] + rest))
  {
    var n := ActiveCount(ports);
    var tables := [t0] + rest;
    assert tables[0] == t0 && tables[1..] == rest;
    var lines := AllRecords(tables);
    var tail := AllRecords(rest);
    assert lines == Records(t0) + tail;
    ReadOldestBatch(t0, tail, ports);
    assert |tail| >= n by {
      assert tail == Records(rest[0]) + AllRecords(rest[1..]);
    }
    assert lines[n..] == tail;
    ReplayStep(lines, ports, ReadBackAll(ActivePorts(t0)), ReadBacks(rest));
    ReadBacksCons(tables);
  }

  lemma {:induction false} ReplayRecords(tables: seq<seq<PortInfo>>, ports: seq<PortInfo>)
    requires |tables| > 0
    requires ActiveCount(ports) > 0
    requires forall i :: 0 <= i < |tables| ==>
      ActiveCount(tables[i]) == ActiveCount(ports) && ActiveRecordSafe(tables[i])
    ensures Replay(Some(AllRecords(tables)), ports) == Some(ReadBacks(tables))
    decreases |tables|
  {
    if |tables| == 1 {
      ReplayOne(tables[0], ports);
      assert tables == [tables[0]];
    } else {
      var rest := tables[1..];
      assert forall i :: 0 <= i < |rest| ==> rest[i] == tables[i + 1];
      ReplayRecords(rest, ports);
      ReplayCons(tables[0], rest, ports);
      assert tables == [tables[0]] + rest;
    }
  }
}
