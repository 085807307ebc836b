/** The firmware's main loop: sample the ports, decide whether to talk to the
    server, drain the backlog while the polling interval has time left, and
    persist the live batch.

    Time, the analog pins, the Wi-Fi link and the server are inputs: the raw
    pin samples of a cycle, whether the link is up, and one `Attempt` per
    iteration the polling timer allows in the drain loop (whether the send
    succeeded, the response text, whether the temporary file of the deletion
    could be opened).  `ServerConnection` starts false and nothing sets it, so
    the live batch always goes to the backlog. */
module PollingLoop {
  import opened Basics
  import opened CStrings
  import opened FloatText
  import opened Structs
  import opened OfflineLogging
  import opened Networking
  import opened SampleRate

  /** The number of analog input pins (`AnalogIn Port[]`). */
  const NUM_PINS: nat := 10

  // ---------------------------------------------------------------------------
  // Sampling

  /** The range check on a converted sample: above the range is checked first
      and tagged `HUGE_VAL`, then below it, tagged `-HUGE_VAL`; values equal to
      a bound are kept. */
  function Classify(v: real, lo: real, hi: real): (r: Reading)
    ensures r == OverRange <==> v > hi
    ensures r == UnderRange <==> v <= hi && v < lo
    ensures r.Measured? <==> lo <= v <= hi
    ensures r.Measured? ==> r.x == v
  {
    if v > hi then OverRange
    else if v < lo then UnderRange
    else Measured(v)
  }

  /** The port's new value: the raw sample times the multiplier, range
      checked; an inactive port is not read. */
  function SamplePort(p: PortInfo, raw: real): (r: PortInfo)
    ensures r.(value := p.value) == p
    ensures !IsActive(p) ==> r == p
    ensures IsActive(p) ==> r.value == Classify(raw * p.multiplier, p.rangeStart, p.rangeEnd)
  {
    if IsActive(p) then p.(value := Classify(raw * p.multiplier, p.rangeStart, p.rangeEnd))
    else p
  }

  /** Every active port sits on one of the pins: the loop reads `Port[i]` for
      each active port `i`. */
  predicate OnPins(ports: seq<PortInfo>) {
    forall i :: NUM_PINS <= i < |ports| ==> !IsActive(ports[i])
  }

  /** One pass of the sampling loop over the port table, given the pins'
      samples. */
  function SamplePorts(ports: seq<PortInfo>, raw: seq<real>): (r: seq<PortInfo>)
    requires |raw| == NUM_PINS
    requires OnPins(ports)
    ensures SameLayout(ports, r)
    ensures forall i :: 0 <= i < |ports| && !IsActive(ports[i]) ==> r[i] == ports[i]
    ensures forall i :: 0 <= i < |ports| && IsActive(ports[i]) ==>
      r[i].value == Classify(raw[i] * ports[i].multiplier, ports[i].rangeStart, ports[i].rangeEnd)
  {
    seq(|ports|, i requires 0 <= i < |ports| => SamplePort(ports[i], if i < NUM_PINS then raw[i] else 0.0))
  }

  /** A sampled value is either inside its port's range or carries the tag of
      the side it left it on. */
  lemma SampledInRange(ports: seq<PortInfo>, raw: seq<real>, i: int)
    requires |raw| == NUM_PINS && OnPins(ports)
    requires 0 <= i < |ports| && IsActive(ports[i])
    ensures var v := SamplePorts(ports, raw)[i].value;
      (v.Measured? && ports[i].rangeStart <= v.x <= ports[i].rangeEnd)
      || (v == OverRange && raw[i] * ports[i].multiplier > ports[i].rangeEnd)
      || (v == UnderRange && raw[i] * ports[i].multiplier < ports[i].rangeStart)
  {
  }

  lemma {:induction false} SameLayoutKeepsRecordSafe(a: seq<PortInfo>, b: seq<PortInfo>)
    requires SameLayout(a, b)
    ensures ActiveRecordSafe(a) ==> ActiveRecordSafe(b)
    ensures OnPins(a) ==> OnPins(b)
    ensures ActiveCount(a) == ActiveCount(b)
  {
    SameLayoutActive(a, b);
    forall i | 0 <= i < |a| ensures a[i].name == b[i].name && a[i].description == b[i].description
      && a[i].multiplier == b[i].multiplier
    {
      assert a[i].(value := b[i].value) == b[i];
    }
  }

  // ---------------------------------------------------------------------------
  // Offline decision

  /** An empty or single-space setting counts as missing. */
  predicate Blank(s: string) {
    s == "" || s == " "
  }

  /** A sequence of checks that can each switch offline mode on and none can
      switch it off. */
  function Sticky(offline: bool, checks: seq<bool>): (r: bool)
    ensures r <==> offline || exists i :: 0 <= i < |checks| && checks[i]
    decreases |checks|
  {
    if |checks| == 0 then offline
    else
      var r := Sticky(if checks[0] then true else offline, checks[1..]);
      assert forall i :: 1 <= i < |checks| ==> checks[i] == checks[1..][i - 1];
      r
  }

  /** The start-up decision: offline mode is entered when the ESP chip did not
      start, or the table name, remote directory, remote IP or host name is
      blank, or the remote port is 0. */
  function OfflineAtStartup(specs: BoardSpecs, espStarted: bool): (offline: bool)
    ensures offline <==>
      !espStarted || Blank(specs.databaseTableName) || Blank(specs.remoteDir)
      || Blank(specs.remoteIp) || specs.remotePort == 0 || Blank(specs.hostName)
  {
    var checks := [!espStarted, Blank(specs.databaseTableName), Blank(specs.remoteDir),
                   Blank(specs.remoteIp), specs.remotePort == 0, Blank(specs.hostName)];
    assert checks[0] == !espStarted && checks[1] == Blank(specs.databaseTableName);
    assert checks[2] == Blank(specs.remoteDir) && checks[3] == Blank(specs.remoteIp);
    assert checks[4] == (specs.remotePort == 0) && checks[5] == Blank(specs.hostName);
    Sticky(false, checks)
  }

  // ---------------------------------------------------------------------------
  // Controller state

  /** What survives from one cycle to the next: the configuration with the
      latest readings, the backlog file, the polling interval, the offline
      flag and the server-connection flag. */
  datatype Controller = Controller(
    specs: BoardSpecs,
    backlog: Store,
    interval: real,
    offline: bool,
    serverConnection: bool)

  /** The state on entering the loop, over whatever backlog the card holds. */
  function Boot(specs: BoardSpecs, espStarted: bool, backlog: Store): (c: Controller)
    ensures c.interval == INITIAL_INTERVAL && !c.serverConnection
    ensures c.offline == OfflineAtStartup(specs, espStarted)
  {
    Controller(specs, backlog, INITIAL_INTERVAL, OfflineAtStartup(specs, espStarted), false)
  }

  // ---------------------------------------------------------------------------
  // Draining the backlog

  /** A response a C++ string can hold. */
  type Response = s: string | |s| < NPOS witness ""

  /** One iteration of the drain loop the polling timer allows. */
  datatype Attempt = Attempt(sendOk: bool, response: Response, tempOpened: bool)

  /** The outcome of the drain loop: the backlog and the interval afterwards,
      the requests sent, the lines each successful send's deletion removed,
      and whether the loop ended on a failed send (which clears
      `ServerConnection`). */
  datatype Drained = Drained(backlog: Store, interval: real, sent: seq<string>,
                             removed: seq<seq<string>>, failed: bool)

  /** The drain loop: while time is left and the backlog exists, send the
      oldest batch, adopt a positive rate that the scanner as written reads
      from the response, stop on a failed send and otherwise delete the
      batch. */
  function Drain(specs: BoardSpecs, backlog: Store, interval: real, attempts: seq<Attempt>): (r: Drained)
    requires WellFormed(backlog, ActiveCount(specs.ports))
    ensures WellFormed(r.backlog, ActiveCount(specs.ports))
    ensures Lines(backlog) == Flatten(r.removed) + Lines(r.backlog)
    ensures interval > 0.0 ==> r.interval > 0.0
    ensures |r.removed| <= |r.sent| <= |attempts|
    ensures r.failed <==> |r.removed| < |r.sent|
    ensures r.failed ==> |r.sent| == |r.removed| + 1
    ensures |attempts| == 0 || backlog.None? ==> r == Drained(backlog, interval, [], [], false)
    ensures |attempts| > 0 && backlog.Some? && !attempts[0].sendOk ==>
      r.backlog == backlog && |r.sent| == 1 && r.removed == []
    decreases |attempts|
  {
    if |attempts| == 0 || !CheckForBackupFile(backlog) then Drained(backlog, interval, [], [], false)
    else
      var a := attempts[0];
      WellFormedReadable(backlog, specs.ports);
      var batch := GetSensorDataFromFile(backlog, specs.ports).value;
      var request := Request(batch, specs);
      var next := NextInterval(interval, ExtractSampleRateAsWritten(a.response));
      if !a.sendOk then Drained(backlog, next, [request], [], true)
      else
        var after := DeleteOldest(backlog, specs.ports, a.tempOpened);
        var gone := Removed(backlog, after);
        var rest := Drain(specs, after, next, attempts[1..]);
        DrainLaw(Lines(backlog), gone, Lines(after), rest.removed, Lines(rest.backlog));
        Drained(rest.backlog, rest.interval, [request] + rest.sent, [gone] + rest.removed, rest.failed)
  }

  /** The polling interval after a drain: the rate read from the last
      response when that rate is positive, and the old interval when no
      response of the drain carried a positive rate. */
  lemma DrainAdoptsRate(specs: BoardSpecs, backlog: Store, interval: real, attempts: seq<Attempt>)
    requires WellFormed(backlog, ActiveCount(specs.ports))
    ensures var r := Drain(specs, backlog, interval, attempts);
      |r.sent| > 0 && ExtractSampleRateAsWritten(attempts[|r.sent| - 1].response) > 0.0 ==>
        r.interval == ExtractSampleRateAsWritten(attempts[|r.sent| - 1].response)
    ensures var r := Drain(specs, backlog, interval, attempts);
      (forall i :: 0 <= i < |r.sent| ==> ExtractSampleRateAsWritten(attempts[i].response) <= 0.0) ==>
        r.interval == interval
  {
    var r := Drain(specs, backlog, interval, attempts);
    var used := attempts[..|r.sent|];
    DrainInterval(specs, backlog, interval, attempts);
    if |used| > 0 {
      AdoptRatesLast(interval, used);
    }
    if forall i :: 0 <= i < |r.sent| ==> ExtractSampleRateAsWritten(attempts[i].response) <= 0.0 {
      assert forall i :: 0 <= i < |used| ==> used[i] == attempts[i];
      AdoptRatesNone(interval, used);
    }
  }

  /** The interval the rule of `NextInterval` gives after reading each
      attempt's response in turn. */
  function AdoptRates(interval: real, attempts: seq<Attempt>): real
    decreases |attempts|
  {
    if |attempts| == 0 then interval
    else AdoptRates(NextInterval(interval, ExtractSampleRateAsWritten(attempts[0].response)), attempts[1..])
  }

  /** The drain reads the response of exactly the attempts it sent on. */
  lemma {:induction false} DrainInterval(specs: BoardSpecs, backlog: Store, interval: real, attempts: seq<Attempt>)
    requires WellFormed(backlog, ActiveCount(specs.ports))
    ensures var r := Drain(specs, backlog, interval, attempts);
      r.interval == AdoptRates(interval, attempts[..|r.sent|])
    decreases |attempts|
  {
    var r := Drain(specs, backlog, interval, attempts);
    if |attempts| == 0 || backlog.None? {
      assert attempts[..|r.sent|] == [];
    } else {
      var next := NextInterval(interval, ExtractSampleRateAsWritten(attempts[0].response));
      var used := attempts[..|r.sent|];
      if attempts[0].sendOk {
        var after := DeleteOldest(backlog, specs.ports, attempts[0].tempOpened);
        var k := DrainSentStep(specs, backlog, interval, attempts);
        DrainInterval(specs, after, next, attempts[1..]);
        assert used[1..] == attempts[1..][..k];
      } else {
        assert r.interval == next && |r.sent| == 1;
        assert used[1..] == [];
      }
      assert AdoptRates(interval, used) == AdoptRates(next, used[1..]);
    }
  }

  /** A successful send hands the rest of the drain the next interval. */
  lemma DrainSentStep(specs: BoardSpecs, backlog: Store, interval: real, attempts: seq<Attempt>) returns (k: nat)
    requires WellFormed(backlog, ActiveCount(specs.ports))
    requires |attempts| > 0 && backlog.Some? && attempts[0].sendOk
    ensures var after := DeleteOldest(backlog, specs.ports, attempts[0].tempOpened);
      var next := NextInterval(interval, ExtractSampleRateAsWritten(attempts[0].response));
      var rest := Drain(specs, after, next, attempts[1..]);
      var r := Drain(specs, backlog, interval, attempts);
      r.interval == rest.interval && |r.sent| == k + 1 && |rest.sent| == k
  {
    var after := DeleteOldest(backlog, specs.ports, attempts[0].tempOpened);
    var next := NextInterval(interval, ExtractSampleRateAsWritten(attempts[0].response));
    k := |Drain(specs, after, next, attempts[1..]).sent|;
  }

  /** A positive rate in the last response read is the interval adopted. */
  lemma {:induction false} AdoptRatesLast(interval: real, attempts: seq<Attempt>)
    requires |attempts| > 0
    ensures ExtractSampleRateAsWritten(attempts[|attempts| - 1].response) > 0.0 ==>
      AdoptRates(interval, attempts) == ExtractSampleRateAsWritten(attempts[|attempts| - 1].response)
    decreases |attempts|
  {
    if |attempts| > 1 {
      AdoptRatesLast(NextInterval(interval, ExtractSampleRateAsWritten(attempts[0].response)), attempts[1..]);
      assert attempts[1..][|attempts| - 2] == attempts[|attempts| - 1];
    }
  }

  /** Responses without a positive rate leave the interval alone. */
  lemma {:induction false} AdoptRatesNone(interval: real, attempts: seq<Attempt>)
    requires forall i :: 0 <= i < |attempts| ==> ExtractSampleRateAsWritten(attempts[i].response) <= 0.0
    ensures AdoptRates(interval, attempts) == interval
    decreases |attempts|
  {
    if |attempts| > 0 {
      assert ExtractSampleRateAsWritten(attempts[0].response) <= 0.0;
      AdoptRatesNone(interval, attempts[1..]);
    }
  }

  /** A deletion that followed the send of `request` removed nothing or one
      whole batch, and a batch it removed parses to the entries `request`
      carried. */
  predicate SentFor(specs: BoardSpecs, request: string, gone: seq<string>) {
    && (|gone| == 0 || |gone| == ActiveCount(specs.ports))
    && (|gone| > 0 ==> ParseLines(gone).Some? && request == Request(ParseLines(gone).value, specs))
  }

  /** Every deletion of a drain followed the send of the batch it removed. */
  predicate SentBeforeDeleted(specs: BoardSpecs, sent: seq<string>, removed: seq<seq<string>>)
  {
    && |removed| <= |sent|
    && forall i :: 0 <= i < |removed| ==> SentFor(specs, sent[i], removed[i])
  }

  lemma SentBeforeDeletedCons(specs: BoardSpecs, request: string, gone: seq<string>,
                              sent: seq<string>, removed: seq<seq<string>>)
    requires SentBeforeDeleted(specs, sent, removed)
    requires SentFor(specs, request, gone)
    ensures SentBeforeDeleted(specs, [request] + sent, [gone] + removed)
  {
    var s, r := [request] + sent, [gone] + removed;
    forall i | 0 <= i < |r| ensures SentFor(specs, s[i], r[i]) {
      if i > 0 {
        assert r[i] == removed[i - 1] && s[i] == sent[i - 1];
      }
    }
  }

  /** A batch leaves the backlog only after the request carrying exactly its
      entries was sent successfully. */
  lemma {:induction false} DrainDeletesOnlySent(specs: BoardSpecs, backlog: Store, interval: real, attempts: seq<Attempt>)
    requires WellFormed(backlog, ActiveCount(specs.ports))
    ensures var r := Drain(specs, backlog, interval, attempts);
      SentBeforeDeleted(specs, r.sent, r.removed)
    decreases |attempts|
  {
    if |attempts| > 0 && backlog.Some? && attempts[0].sendOk {
      var a := attempts[0];
      WellFormedReadable(backlog, specs.ports);
      var request := Request(GetSensorDataFromFile(backlog, specs.ports).value, specs);
      var next := NextInterval(interval, ExtractSampleRateAsWritten(a.response));
      var after := DeleteOldest(backlog, specs.ports, a.tempOpened);
      var gone := Removed(backlog, after);
      var rest := Drain(specs, after, next, attempts[1..]);
      DrainDeletesOnlySent(specs, after, next, attempts[1..]);
      SentBeforeDeletedCons(specs, request, gone, rest.sent, rest.removed);
    }
  }

  /** `deleteDataEntry` after a successful send, on a well-formed backlog: it
      removes nothing or exactly the oldest batch, the lines the send just
      read, and the backlog stays well formed. */
  function DeleteOldest(backlog: Store, ports: seq<PortInfo>, tempOpened: bool): (after: Store)
    requires WellFormed(backlog, ActiveCount(ports)) && backlog.Some?
    ensures after == DeleteDataEntry(backlog, ports, tempOpened).store
    ensures WellFormed(after, ActiveCount(ports))
    ensures |Lines(after)| <= |Lines(backlog)|
    ensures Lines(backlog) == Removed(backlog, after) + Lines(after)
    ensures |Removed(backlog, after)| == 0 || |Removed(backlog, after)| == ActiveCount(ports)
    ensures |Removed(backlog, after)| > 0 ==>
      GetSensorDataFromFile(backlog, ports) == ParseLines(Removed(backlog, after))
  {
    DeleteKeepsWellFormed(backlog, ports, tempOpened);
    DeletionSplitsBacklog(backlog, ports, tempOpened);
    DeleteDataEntry(backlog, ports, tempOpened).store
  }

  lemma DrainLaw<T>(lines: seq<T>, gone: seq<T>, mid: seq<T>, removed: seq<seq<T>>, final: seq<T>)
    requires lines == gone + mid
    requires mid == Flatten(removed) + final
    ensures lines == Flatten([gone] + removed) + final
  {
    assert Flatten([gone] + removed) == gone + Flatten(removed) by {
      assert ([gone] + removed)[1..] == removed;
    }
    ConcatAssoc(gone, Flatten(removed), final);
  }

  /** When every send succeeds, every temporary file opens and the timer
      allows more iterations than the backlog has lines, the drain empties the
      backlog: the file is removed and everything in it was sent. */
  lemma {:induction false} DrainEmpties(specs: BoardSpecs, backlog: Store, interval: real, attempts: seq<Attempt>)
    requires WellFormed(backlog, ActiveCount(specs.ports))
    requires forall i :: 0 <= i < |attempts| ==> attempts[i].sendOk && attempts[i].tempOpened
    requires backlog.Some? ==> |attempts| > |backlog.value|
    ensures var r := Drain(specs, backlog, interval, attempts);
      r.backlog == None && Flatten(r.removed) == Lines(backlog) && !r.failed
    decreases |attempts|
  {
    var r := Drain(specs, backlog, interval, attempts);
    if backlog.Some? {
      var a := attempts[0];
      var next := NextInterval(interval, ExtractSampleRateAsWritten(a.response));
      var after := DeleteOldest(backlog, specs.ports, a.tempOpened);
      if after.Some? {
        var n := ActiveCount(specs.ports);
        assert n > 0 && |after.value| == |backlog.value| - n;
      }
      DrainEmpties(specs, after, next, attempts[1..]);
      assert Lines(r.backlog) == [];
    }
  }

  // ---------------------------------------------------------------------------
  // One cycle of the main loop

  /** What the world supplies to one cycle: the pins' samples, whether the
      link is up after any reconnection attempt, the drain iterations the
      timer allows, whether an absent backlog file can be created, and whether
      sending the live batch succeeds. */
  datatype Inputs = Inputs(raw: seq<real>, linkUp: bool, attempts: seq<Attempt>, created: bool, bulkOk: bool)

  /** The result of a cycle: the next state, the requests sent and the lines
      removed from the backlog after successful sends. */
  datatype Step = Step(next: Controller, sent: seq<string>, removed: seq<seq<string>>)

  /** The port table with this cycle's readings. */
  function Sampled(c: Controller, inp: Inputs): seq<PortInfo>
    requires |inp.raw| == NUM_PINS && OnPins(c.specs.ports)
  {
    SamplePorts(c.specs.ports, inp.raw)
  }

  /** One pass of the main loop.  Offline, or with the link down, the live
      batch is appended to the backlog.  Otherwise the backlog is drained;
      then the live batch is sent if `ServerConnection` holds (and still holds
      after the drain), else appended to the backlog. */
  function Cycle(c: Controller, inp: Inputs): (s: Step)
    requires |inp.raw| == NUM_PINS && OnPins(c.specs.ports)
    requires WellFormed(c.backlog, ActiveCount(c.specs.ports))
    ensures s.next.offline == c.offline
    ensures s.next.specs == c.specs.(ports := Sampled(c, inp))
    ensures c.offline || !inp.linkUp ==> s.sent == [] && s.removed == [] && s.next.interval == c.interval
    ensures !c.serverConnection ==> !s.next.serverConnection
  {
    var ports := Sampled(c, inp);
    SameLayoutKeepsRecordSafe(c.specs.ports, ports);
    var specs := c.specs.(ports := ports);
    if c.offline || !inp.linkUp then
      Step(c.(specs := specs, backlog := DumpSensorDataToFile(c.backlog, ports, inp.created)), [], [])
    else
      var d := Drain(specs, c.backlog, c.interval, inp.attempts);
      if c.serverConnection && !d.failed then
        Step(c.(specs := specs, backlog := d.backlog, interval := d.interval, serverConnection := inp.bulkOk),
             d.sent + [Request(ports, specs)], d.removed)
      else
        Step(c.(specs := specs, backlog := DumpSensorDataToFile(d.backlog, ports, inp.created),
                interval := d.interval, serverConnection := false),
             d.sent, d.removed)
  }

  /** What every state of the loop satisfies: the backlog is well formed for
      the configured port table, `ServerConnection` is false, the interval is
      positive, and the active ports are record safe and on the pins. */
  predicate Inv(c: Controller) {
    && WellFormed(c.backlog, ActiveCount(c.specs.ports))
    && !c.serverConnection
    && c.interval > 0.0
    && ActiveRecordSafe(c.specs.ports)
    && OnPins(c.specs.ports)
  }

  /** The loop starts in a state satisfying the invariant when the card holds
      a well-formed backlog (in particular none) and the configuration read
      has record-safe ports on the pins. */
  lemma BootInv(specs: BoardSpecs, espStarted: bool, backlog: Store)
    requires WellFormed(backlog, ActiveCount(specs.ports))
    requires AllRecordSafe(specs.ports) && OnPins(specs.ports)
    ensures Inv(Boot(specs, espStarted, backlog))
  {
  }

  lemma {:induction false} CycleKeepsInv(c: Controller, inp: Inputs)
    requires Inv(c) && |inp.raw| == NUM_PINS
    ensures Inv(Cycle(c, inp).next)
  {
    var ports := Sampled(c, inp);
    SameLayoutKeepsRecordSafe(c.specs.ports, ports);
    var specs := c.specs.(ports := ports);
    if c.offline || !inp.linkUp {
      DumpKeepsWellFormed(c.backlog, ports, inp.created);
    } else {
      var d := Drain(specs, c.backlog, c.interval, inp.attempts);
      DumpKeepsWellFormed(d.backlog, ports, inp.created);
    }
  }

  /** Under the invariant the live batch is never sent: every request of the
      cycle comes from the backlog, the live batch is appended after the
      drain, and (when the file can be created) the backlog afterwards ends
      with its records.  Nothing is lost: the old backlog followed by the live
      records equals what the successful sends removed followed by the new
      backlog. */
  lemma {:induction false} CycleQueueLaw(c: Controller, inp: Inputs)
    requires Inv(c) && |inp.raw| == NUM_PINS && inp.created
    ensures var s := Cycle(c, inp);
      && s.next.backlog.Some?
      && Lines(c.backlog) + Records(Sampled(c, inp)) == Flatten(s.removed) + Lines(s.next.backlog)
      && |s.removed| <= |s.sent|
      && SentBeforeDeleted(s.next.specs, s.sent, s.removed)
  {
    var s := Cycle(c, inp);
    var ports := Sampled(c, inp);
    SameLayoutKeepsRecordSafe(c.specs.ports, ports);
    var specs := c.specs.(ports := ports);
    if c.offline || !inp.linkUp {
      assert Flatten(s.removed) == [];
      assert Lines(s.next.backlog) == Lines(c.backlog) + Records(ports);
    } else {
      var d := Drain(specs, c.backlog, c.interval, inp.attempts);
      DrainDeletesOnlySent(specs, c.backlog, c.interval, inp.attempts);
      assert Lines(s.next.backlog) == Lines(d.backlog) + Records(ports);
      ConcatAssoc(Flatten(d.removed), Lines(d.backlog), Records(ports));
    }
  }

  /** Whatever the link and the timer do, a cycle sends at most one request
      per drain iteration, none when offline or disconnected, and never the
      live batch: the backlog afterwards ends with the live batch's records,
      appended once after the drain. */
  lemma {:induction false} LiveBatchBackedUp(c: Controller, inp: Inputs)
    requires Inv(c) && |inp.raw| == NUM_PINS && inp.created
    ensures var s := Cycle(c, inp);
      var live := Records(Sampled(c, inp));
      && |s.sent| <= |inp.attempts|
      && (c.offline || !inp.linkUp ==> s.sent == [])
      && |Lines(s.next.backlog)| >= |live|
      && Lines(s.next.backlog)[|Lines(s.next.backlog)| - |live|..] == live
    ensures ActiveCount(Sampled(c, inp)) == ActiveCount(c.specs.ports)
    ensures !c.offline && inp.linkUp ==>
      Cycle(c, inp).sent == Drain(c.specs.(ports := Sampled(c, inp)), c.backlog, c.interval, inp.attempts).sent
  {
    var s := Cycle(c, inp);
    var ports := Sampled(c, inp);
    SameLayoutKeepsRecordSafe(c.specs.ports, ports);
    var specs := c.specs.(ports := ports);
    var live := Records(ports);
    var before := if c.offline || !inp.linkUp then c.backlog
                  else Drain(specs, c.backlog, c.interval, inp.attempts).backlog;
    assert Lines(s.next.backlog) == Lines(before) + live;
    if !c.offline && inp.linkUp {
      assert !c.serverConnection;
      assert s.sent == Drain(specs, c.backlog, c.interval, inp.attempts).sent;
    }
  }

  /** The entries read back from the backlog are all active, so the request
      built from them carries every one of them, in file order. */
  lemma {:induction false} BacklogBatchFullyEmitted(store: Store, ports: seq<PortInfo>)
    requires GetSensorDataFromFile(store, ports).Some?
    ensures var b := GetSensorDataFromFile(store, ports).value;
      ActivePorts(b) == b && Fields(b) == Flatten(seq(|b|, i requires 0 <= i < |b| => Field(b[i])))
  {
    var b := GetSensorDataFromFile(store, ports).value;
    assert forall i :: 0 <= i < |b| ==> IsActive(b[i]);
    FieldsOfAllActive(b);
  }

  lemma {:induction false} FieldsOfAllActive(ports: seq<PortInfo>)
    requires forall i :: 0 <= i < |ports| ==> IsActive(ports[i])
    ensures Fields(ports) == Flatten(seq(|ports|, i requires 0 <= i < |ports| => Field(ports[i])))
    decreases |ports|
  {
    var all := seq(|ports|, i requires 0 <= i < |ports| => Field(ports[i]));
    if |ports| > 0 {
      FieldsOfAllActive(ports[1..]);
      assert all[1..] == seq(|ports| - 1, i requires 0 <= i < |ports| - 1 => Field(ports[1..][i]));
    }
  }

  // ---------------------------------------------------------------------------
  // Many cycles

  /** The record of a run: the final state, the port tables each cycle
      recorded, and the lines removed after successful sends, in order. */
  datatype Trace = Trace(final: Controller, recorded: seq<seq<PortInfo>>, removed: seq<seq<string>>)

  predicate AllSampled(inputs: seq<Inputs>) {
    forall i :: 0 <= i < |inputs| ==> |inputs[i].raw| == NUM_PINS
  }

  /** Successive cycles from a state satisfying the invariant. */
  function Run(c: Controller, inputs: seq<Inputs>): (t: Trace)
    requires Inv(c) && AllSampled(inputs)
    ensures Inv(t.final)
    ensures t.final.offline == c.offline
    ensures |t.recorded| == |inputs|
    decreases |inputs|
  {
    if |inputs| == 0 then Trace(c, [], [])
    else
      var s := Cycle(c, inputs[0]);
      CycleKeepsInv(c, inputs[0]);
      var rest := Run(s.next, inputs[1..]);
      Trace(rest.final, [Sampled(c, inputs[0])] + rest.recorded, s.removed + rest.removed)
  }

  /** No reading is lost while the card works: over any run in which an
      absent backlog file can always be created, the old backlog followed by
      the records of every cycle's live batch equals the lines removed after
      successful sends followed by the final backlog. */
  lemma {:induction false} RunLosesNothing(c: Controller, inputs: seq<Inputs>)
    requires Inv(c) && AllSampled(inputs)
    requires forall i :: 0 <= i < |inputs| ==> inputs[i].created
    ensures var t := Run(c, inputs);
      Lines(c.backlog) + AllRecords(t.recorded) == Flatten(t.removed) + Lines(t.final.backlog)
    decreases |inputs|
  {
    var t := Run(c, inputs);
    if |inputs| == 0 {
      assert Lines(c.backlog) + [] == Lines(c.backlog);
    } else {
      var s := Cycle(c, inputs[0]);
      CycleKeepsInv(c, inputs[0]);
      CycleQueueLaw(c, inputs[0]);
      var rest := Run(s.next, inputs[1..]);
      RunLosesNothing(s.next, inputs[1..]);
      var live := Records(Sampled(c, inputs[0]));
      assert t.recorded == [Sampled(c, inputs[0])] + rest.recorded;
      assert AllRecords(t.recorded) == live + AllRecords(rest.recorded);
      FlattenAppend(s.removed, rest.removed);
      QueueCompose(Lines(c.backlog), live, AllRecords(rest.recorded), Flatten(s.removed),
                   Lines(s.next.backlog), Flatten(rest.removed), Lines(rest.final.backlog));
    }
  }

  lemma QueueCompose<T>(old0: seq<T>, live: seq<T>, later: seq<T>, gone: seq<T>, mid: seq<T>,
                        goneLater: seq<T>, final: seq<T>)
    requires old0 + live == gone + mid
    requires mid + later == goneLater + final
    ensures old0 + (live + later) == (gone + goneLater) + final
  {
    ConcatAssoc(old0, live, later);
    ConcatAssoc(gone, mid, later);
    ConcatAssoc(gone, goneLater, final);
  }

  /** Offline mode, once entered, is never left, and a board that booted
      online stays online: the flag is decided once at start-up. */
  lemma OfflineIsFixed(specs: BoardSpecs, espStarted: bool, backlog: Store, inputs: seq<Inputs>)
    requires WellFormed(backlog, ActiveCount(specs.ports))
    requires AllRecordSafe(specs.ports) && OnPins(specs.ports)
    requires AllSampled(inputs)
    ensures Inv(Boot(specs, espStarted, backlog))
    ensures Run(Boot(specs, espStarted, backlog), inputs).final.offline == OfflineAtStartup(specs, espStarted)
  {
    BootInv(specs, espStarted, backlog);
  }
}
