/** The acquisition loop of main.py: the timestamps of a read cycle, the advance of the start
    time, turning per-channel buffers into rows, rows into database records, and one timer
    tick that reads every enabled channel, writes the records and stops the device when asked.
    Time is counted in units of 100 ms, the unit of the device's measurement cycle. */
module Acquisition {
  import opened Wrappers
  import opened Utils
  import opened Core
  import opened Protocol
  import opened Device

  /** Readings per channel buffer, and so records per tick. */
  const NUM_BUFFER := 10

  /** Field names, paired with the channels in ascending channel order. */
  const CH_KEYS: seq<string> := ["wind_spd", "wind_dir"]

  const DB_MEASUREMENT := "Aerovane"

  // ---------------------------------------------------------------------------------------
  // Timestamps

  /** The timestamps of one read cycle: `NUM_BUFFER` instants, `cycle` apart, from `start`. */
  function Timeline(start: int, cycle: int): seq<int> {
    seq(NUM_BUFFER, i => start + i * cycle)
  }

  /** `update_starttime`: one cycle after the last timestamp. */
  function NextStart(timestamps: seq<int>, cycle: int): int
    requires timestamps != []
  {
    timestamps[|timestamps| - 1] + cycle
  }

  /** The next start time is a whole buffer later: the anchor never drifts. */
  lemma NextStartAfterTimeline(start: int, cycle: int)
    ensures NextStart(Timeline(start, cycle), cycle) == start + NUM_BUFFER * cycle
  {
  }

  /** The timestamps of `n` consecutive ticks, each regenerating from the start time and
      then advancing it. */
  function Timelines(start: int, cycle: int, n: nat): seq<int>
    decreases n
  {
    if n == 0 then [] else
      var ts := Timeline(start, cycle);
      ts + Timelines(NextStart(ts, cycle), cycle, n - 1)
  }

  /** The start time after `n` ticks. */
  function StartAfter(start: int, cycle: int, n: nat): int
    decreases n
  {
    if n == 0 then start else StartAfter(NextStart(Timeline(start, cycle), cycle), cycle, n - 1)
  }

  /** After `n` ticks the start time has moved by exactly `n` buffers. */
  lemma {:induction false} StartAfterTicks(start: int, cycle: int, n: nat)
    ensures StartAfter(start, cycle, n) == start + n * NUM_BUFFER * cycle
    decreases n
  {
    if n > 0 {
      NextStartAfterTimeline(start, cycle);
      StartAfterTicks(start + NUM_BUFFER * cycle, cycle, n - 1);
      assert start + NUM_BUFFER * cycle + (n - 1) * NUM_BUFFER * cycle == start + n * NUM_BUFFER * cycle;
    }
  }

  /** The timestamps of `n` ticks are one unbroken sequence, `cycle` apart: no gap and no
      overlap between one tick's last timestamp and the next tick's first. */
  lemma {:induction false} TimelinesContiguous(start: int, cycle: int, n: nat)
    ensures Timelines(start, cycle, n) == seq(n * NUM_BUFFER, i => start + i * cycle)
    decreases n
  {
    if n > 0 {
      var ts := Timeline(start, cycle);
      var next := start + NUM_BUFFER * cycle;
      NextStartAfterTimeline(start, cycle);
      TimelinesContiguous(next, cycle, n - 1);
      var rest := seq((n - 1) * NUM_BUFFER, i => next + i * cycle);
      var whole := seq(n * NUM_BUFFER, i => start + i * cycle);
      assert |ts + rest| == |whole|;
      forall i | 0 <= i < |whole|
        ensures (ts + rest)[i] == whole[i]
      {
        if i >= NUM_BUFFER {
          assert (ts + rest)[i] == rest[i - NUM_BUFFER];
          assert next + (i - NUM_BUFFER) * cycle == start + i * cycle;
        }
      }
    }
  }

  /** The timestamps generated by ticks started at `starts`, in order. */
  function Stamps(starts: seq<int>, cycle: int): seq<int>
    decreases |starts|
  {
    if starts == [] then [] else Timeline(starts[0], cycle) + Stamps(starts[1..], cycle)
  }

  /** A run of ticks: each `Scheduler.Tick` sets `timestamps` to `Timeline(old(start), cycle)`
      and `start` to `old(start) + NUM_BUFFER * cycle`, so the start times of successive
      ticks are `starts`. Those ticks generate `Timelines` and leave `StartAfter`. */
  lemma {:induction false} TicksFollowTimelines(starts: seq<int>, cycle: int)
    requires starts != []
    requires forall i :: 0 <= i < |starts| - 1 ==> starts[i + 1] == starts[i] + NUM_BUFFER * cycle
    ensures Stamps(starts[..|starts| - 1], cycle) == Timelines(starts[0], cycle, |starts| - 1)
    ensures starts[|starts| - 1] == StartAfter(starts[0], cycle, |starts| - 1)
    decreases |starts|
  {
    if |starts| > 1 {
      var rest := starts[1..];
      assert forall i :: 1 <= i < |starts| ==> rest[i - 1] == starts[i];
      TicksFollowTimelines(rest, cycle);
      NextStartAfterTimeline(starts[0], cycle);
      assert starts[..|starts| - 1][1..] == rest[..|rest| - 1];
    } else {
      assert starts[..0] == [];
    }
  }

  // ---------------------------------------------------------------------------------------
  // Buffers to rows: `zip(*buffers)`

  predicate AllNonEmpty<V>(cols: seq<seq<V>>) {
    forall c :: 0 <= c < |cols| ==> cols[c] != []
  }

  function Heads<V>(cols: seq<seq<V>>): (row: seq<V>)
    requires AllNonEmpty(cols)
    ensures |row| == |cols| && forall c :: 0 <= c < |cols| ==> row[c] == cols[c][0]
  {
    seq(|cols|, c requires 0 <= c < |cols| => cols[c][0])
  }

  function Tails<V>(cols: seq<seq<V>>): (rest: seq<seq<V>>)
    requires AllNonEmpty(cols)
    ensures |rest| == |cols| && forall c :: 0 <= c < |cols| ==> rest[c] == cols[c][1..]
  {
    seq(|cols|, c requires 0 <= c < |cols| => cols[c][1..])
  }

  /** `zip(*cols)`: take one value from every buffer while none is exhausted. */
  function Transpose<V>(cols: seq<seq<V>>): seq<seq<V>>
    decreases if cols == [] then 0 else |cols[0]|
  {
    if cols == [] || !AllNonEmpty(cols) then [] else [Heads(cols)] + Transpose(Tails(cols))
  }

  /** The length of the shortest buffer. */
  function MinLen<V>(cols: seq<seq<V>>): (m: nat)
    requires cols != []
    ensures forall c :: 0 <= c < |cols| ==> m <= |cols[c]|
    ensures exists c :: 0 <= c < |cols| && m == |cols[c]|
    decreases |cols|
  {
    if |cols| == 1 then |cols[0]|
    else
      var rest := MinLen(cols[1..]);
      assert forall c :: 1 <= c < |cols| ==> cols[c] == cols[1..][c - 1];
      if |cols[0]| <= rest then |cols[0]| else rest
  }

  lemma MinLenOfTails<V>(cols: seq<seq<V>>)
    requires cols != [] && AllNonEmpty(cols)
    ensures MinLen(Tails(cols)) == MinLen(cols) - 1
  {
    var m := MinLen(cols);
    var t := MinLen(Tails(cols));
    var c0 :| 0 <= c0 < |cols| && m == |cols[c0]|;
    var c1 :| 0 <= c1 < |cols| && t == |Tails(cols)[c1]|;
    assert t <= |Tails(cols)[c0]| == m - 1;
    assert m <= |cols[c1]| == t + 1;
  }

  /** Row `j` holds the `j`-th value of every buffer, in buffer order, and there are as many
      rows as the shortest buffer has values; with no buffers there are no rows. */
  lemma {:induction false} TransposeShape<V>(cols: seq<seq<V>>)
    ensures cols == [] ==> Transpose(cols) == []
    ensures cols != [] ==> |Transpose(cols)| == MinLen(cols)
    ensures forall j, c :: 0 <= j < |Transpose(cols)| && 0 <= c < |cols| ==>
              |Transpose(cols)[j]| == |cols| && c < |cols| && j < |cols[c]| && Transpose(cols)[j][c] == cols[c][j]
    decreases if cols == [] then 0 else |cols[0]|
  {
    if cols != [] {
      if !AllNonEmpty(cols) {
        var c :| 0 <= c < |cols| && cols[c] == [];
        assert MinLen(cols) <= |cols[c]|;
      } else {
        var tails := Tails(cols);
        TransposeShape(tails);
        MinLenOfTails(cols);
        var rows := Transpose(cols);
        assert rows == [Heads(cols)] + Transpose(tails);
        forall j, c | 0 <= j < |rows| && 0 <= c < |cols|
          ensures |rows[j]| == |cols| && j < |cols[c]| && rows[j][c] == cols[c][j]
        {
          if j > 0 {
            assert rows[j] == Transpose(tails)[j - 1];
            assert tails[c] == cols[c][1..];
          }
        }
      }
    }
  }

  // ---------------------------------------------------------------------------------------
  // Rows to records

  /** `dict(zip(keys, row))`: pairs inserted left to right, so a repeated key keeps its
      last value. */
  function FieldsOf<V>(keys: seq<string>, row: seq<V>): map<string, V> {
    Insert(map[], keys, row)
  }

  function Insert<V>(acc: map<string, V>, keys: seq<string>, row: seq<V>): map<string, V>
    decreases |keys|
  {
    if keys == [] || row == [] then acc else Insert(acc[keys[0] := row[0]], keys[1..], row[1..])
  }

  predicate Distinct(keys: seq<string>) {
    forall i, j :: 0 <= i < j < |keys| ==> keys[i] != keys[j]
  }

  lemma {:induction false} InsertSpec<V>(acc: map<string, V>, keys: seq<string>, row: seq<V>)
    requires Distinct(keys)
    ensures var n := if |keys| <= |row| then |keys| else |row|;
            var m := Insert(acc, keys, row);
            (forall x :: x in m <==> x in acc || x in keys[..n]) &&
            (forall k :: 0 <= k < n ==> keys[k] in m && m[keys[k]] == row[k]) &&
            (forall x :: x in acc && x !in keys[..n] ==> m[x] == acc[x])
    decreases |keys|
  {
    if keys != [] && row != [] {
      var n := if |keys| <= |row| then |keys| else |row|;
      var acc' := acc[keys[0] := row[0]];
      InsertSpec(acc', keys[1..], row[1..]);
      assert keys[1..][..n - 1] == keys[1..n];
      assert keys[..n] == [keys[0]] + keys[1..n];
      forall k | 1 <= k < n
        ensures keys[k] == keys[1..][k - 1] && row[k] == row[1..][k - 1]
      {
      }
      assert keys[0] !in keys[1..n];
    }
  }

  /** With distinct keys, the fields pair the `k`-th key with the `k`-th value, as far as
      the shorter of the two goes, and hold nothing else. */
  lemma FieldsOfDistinctKeys<V>(keys: seq<string>, row: seq<V>)
    requires Distinct(keys)
    ensures var n := if |keys| <= |row| then |keys| else |row|;
            var m := FieldsOf(keys, row);
            m.Keys == (set k | 0 <= k < n :: keys[k]) &&
            forall k :: 0 <= k < n ==> m[keys[k]] == row[k]
  {
    var n := if |keys| <= |row| then |keys| else |row|;
    InsertSpec(map[], keys, row);
    forall x | x in keys[..n]
      ensures exists k :: 0 <= k < n && keys[k] == x
    {
      var k :| 0 <= k < n && keys[..n][k] == x;
    }
  }

  /** For this installation: the first channel read is the wind speed, the second the wind
      direction, and any further channel is dropped. */
  lemma WindFields<V>(row: seq<V>)
    requires |row| >= 2
    ensures FieldsOf(CH_KEYS, row) == map["wind_spd" := row[0], "wind_dir" := row[1]]
  {
    FieldsOfDistinctKeys(CH_KEYS, row);
  }

  /** A database point. */
  datatype Record<V> = Record(time: int, fields: map<string, V>, measurement: string)

  function Records<V>(timestamps: seq<int>, rows: seq<seq<V>>): seq<Record<V>> {
    var n := if |timestamps| <= |rows| then |timestamps| else |rows|;
    seq(n, i requires 0 <= i < n => Record(timestamps[i], FieldsOf(CH_KEYS, rows[i]), DB_MEASUREMENT))
  }

  /** `format_data(rows)`: one record per timestamp and row, in order, as far as the shorter
      of the two goes. */
  method FormatData<V>(timestamps: seq<int>, rows: seq<seq<V>>) returns (formatted: seq<Record<V>>)
    ensures formatted == Records(timestamps, rows)
    ensures |formatted| == if |timestamps| <= |rows| then |timestamps| else |rows|
    ensures forall i :: 0 <= i < |formatted| ==>
              formatted[i] == Record(timestamps[i], FieldsOf(CH_KEYS, rows[i]), DB_MEASUREMENT)
  {
    var fieldsLst := seq(|rows|, j requires 0 <= j < |rows| => FieldsOf(CH_KEYS, rows[j]));
    var n := if |timestamps| <= |fieldsLst| then |timestamps| else |fieldsLst|;
    formatted := [];
    var i := 0;
    while i < n
      invariant 0 <= i <= n
      invariant |formatted| == i
      invariant forall k :: 0 <= k < i ==> formatted[k] == Record(timestamps[k], FieldsOf(CH_KEYS, rows[k]), DB_MEASUREMENT)
    {
      formatted := formatted + [Record(timestamps[i], fieldsLst[i], DB_MEASUREMENT)];
      i := i + 1;
    }
  }

  // ---------------------------------------------------------------------------------------
  // Reading every channel

  /** What a run of queries did: the trace events, the replies consumed, and the
      communicator's answer to each query. */
  datatype Readout = Readout(events: seq<Event>, consumed: nat, answers: seq<Result<string, TransportError>>)

  /** Every command is sent as a query, one after the other, whatever happened to the
      others. */
  function QueryAll(cmds: seq<string>, link: Link): (rd: Readout)
    ensures |rd.answers| == |cmds| && rd.consumed <= |link.pending|
    decreases |cmds|
  {
    if cmds == [] then Readout([], 0, [])
    else
      var done := QueryAll(cmds[..|cmds| - 1], link);
      var x := Ask(cmds[|cmds| - 1], link.Consume(done.consumed));
      Readout(done.events + x.events, done.consumed + x.consumed, done.answers + [x.answer])
  }

  /** The buffer reads of a list of channels, in order. */
  function ReadCommands(chs: seq<nat>): (cmds: seq<string>)
    ensures |cmds| == |chs| && forall k :: 0 <= k < |chs| ==> cmds[k] == ReadBufferCommand(chs[k])
  {
    seq(|chs|, k requires 0 <= k < |chs| => ReadBufferCommand(chs[k]))
  }

  /** Reading every channel: a buffer-read query per channel. */
  function ReadAll(chs: seq<nat>, link: Link): (rd: Readout)
    ensures |rd.answers| == |chs| && rd.consumed <= |link.pending|
  {
    QueryAll(ReadCommands(chs), link)
  }

  /** Each channel's result: its answer read as a buffer. */
  function Readings<V>(answers: seq<Result<string, TransportError>>, term: string, parse: string -> Option<V>): (rs: seq<Result<Reading<V>, DeviceError>>)
    ensures |rs| == |answers| && forall k :: 0 <= k < |answers| ==> rs[k] == BufferAnswer(answers[k], term, parse)
  {
    seq(|answers|, k requires 0 <= k < |answers| => BufferAnswer(answers[k], term, parse))
  }

  /** Which answer each query gets: on a closed link every query fails as not connected;
      on an open link the queued replies go to the queries in order, one each, and the
      queries left over time out. */
  lemma {:induction false} QueryAllAnswers(cmds: seq<string>, link: Link)
    ensures var rd := QueryAll(cmds, link);
            (rd.consumed == if !link.connected then 0 else if |cmds| <= |link.pending| then |cmds| else |link.pending|) &&
            forall k :: 0 <= k < |cmds| ==>
              rd.answers[k] == if !link.connected then Failure(NotConnected)
                               else if k < |link.pending| then Success(link.pending[k])
                               else Failure(Timeout)
    decreases |cmds|
  {
    if cmds != [] {
      var n := |cmds| - 1;
      QueryAllAnswers(cmds[..n], link);
      var done := QueryAll(cmds[..n], link);
      var rest := link.Consume(done.consumed);
      var x := Ask(cmds[n], rest);
      assert QueryAll(cmds, link).answers == done.answers + [x.answer];
      if link.connected && n < |link.pending| {
        assert rest.pending[0] == link.pending[n];
      }
    }
  }

  // ---------------------------------------------------------------------------------------
  // Results to buffers: the arguments of `zip(*...)`

  /** Why a tick fails: a read raised, or a result cannot be iterated by `zip`. */
  datatype TickError = DeviceFailure(error: DeviceError) | NotIterable

  /** How `zip` sees a reading as the code is written: `None` and a lone number are not
      iterable. */
  function ColumnAsWritten<V>(r: Reading<V>): Option<seq<V>> {
    match r
    case NoData => None
    case Single(_) => None
    case Multiple(vs) => Some(vs)
  }

  /** The reading as a buffer, with a lone number taken as a buffer of one. */
  function Column<V>(r: Reading<V>): Option<seq<V>> {
    match r
    case NoData => None
    case Single(v) => Some([v])
    case Multiple(vs) => Some(vs)
  }

  /** `zip(*(f.result() for f in futures))`: the results are collected in channel order, so
      the first failed read raises before `zip` looks at any buffer; then the first result
      `zip` cannot iterate raises. */
  function Gather<V>(results: seq<Result<Reading<V>, DeviceError>>, view: Reading<V> -> Option<seq<V>>): Result<seq<seq<V>>, TickError> {
    match FirstFailure(results)
    case Some(e) => Failure(DeviceFailure(e))
    case None => Iterate(results, view)
  }

  function FirstFailure<V>(results: seq<Result<Reading<V>, DeviceError>>): Option<DeviceError>
    decreases |results|
  {
    if results == [] then None
    else if results[0].Failure? then Some(results[0].error)
    else FirstFailure(results[1..])
  }

  function Iterate<V>(results: seq<Result<Reading<V>, DeviceError>>, view: Reading<V> -> Option<seq<V>>): Result<seq<seq<V>>, TickError>
    decreases |results|
  {
    if results == [] then Success([])
    else if results[0].Failure? then Failure(DeviceFailure(results[0].error))
    else match view(results[0].value)
      case None => Failure(NotIterable)
      case Some(col) =>
        match Iterate(results[1..], view)
        case Failure(e) => Failure(e)
        case Success(cols) => Success([col] + cols)
  }

  /** A failed read makes the tick fail with the error of the first failed channel. */
  lemma {:induction false} FirstFailureSpec<V>(results: seq<Result<Reading<V>, DeviceError>>)
    ensures FirstFailure(results).None? <==> forall k :: 0 <= k < |results| ==> results[k].Success?
    ensures FirstFailure(results).Some? ==>
              exists j :: 0 <= j < |results| && results[j] == Failure(FirstFailure(results).value) &&
                          forall k :: 0 <= k < j ==> results[k].Success?
    decreases |results|
  {
    if results != [] {
      FirstFailureSpec(results[1..]);
      assert forall k :: 1 <= k < |results| ==> results[k] == results[1..][k - 1];
      if results[0].Success? && FirstFailure(results[1..]).Some? {
        var j :| 0 <= j < |results[1..]| && results[1..][j] == Failure(FirstFailure(results[1..]).value) &&
                 forall k :: 0 <= k < j ==> results[1..][k].Success?;
        assert results[j + 1] == Failure(FirstFailure(results).value);
      }
      if results[0].Failure? {
        assert results[0] == Failure(FirstFailure(results).value);
      }
    }
  }

  /** When every read succeeded, the buffers are gathered exactly when every reading is
      iterable, and each buffer is its channel's reading. */
  lemma {:induction false} IterateSpec<V>(results: seq<Result<Reading<V>, DeviceError>>, view: Reading<V> -> Option<seq<V>>)
    requires forall k :: 0 <= k < |results| ==> results[k].Success?
    ensures Iterate(results, view).Success? <==> forall k :: 0 <= k < |results| ==> view(results[k].value).Some?
    ensures Iterate(results, view).Failure? ==> Iterate(results, view).error == NotIterable
    ensures Iterate(results, view).Success? ==>
              var cols := Iterate(results, view).value;
              |cols| == |results| && forall k :: 0 <= k < |results| ==> Some(cols[k]) == view(results[k].value)
    decreases |results|
  {
    if results != [] {
      IterateSpec(results[1..], view);
      assert forall k :: 1 <= k < |results| ==> results[k] == results[1..][k - 1];
    }
  }

  /** The values a reading carries. */
  function Values<V>(r: Reading<V>): seq<V> {
    match r
    case NoData => []
    case Single(v) => [v]
    case Multiple(vs) => vs
  }

  /** As written, a channel whose buffer held one value makes the whole tick fail, even
      though every read succeeded. */
  lemma SingleValueAbortsTick<V>(results: seq<Result<Reading<V>, DeviceError>>, j: nat)
    requires forall k :: 0 <= k < |results| ==> results[k].Success?
    requires j < |results| && results[j].value.Single?
    ensures Gather(results, ColumnAsWritten) == Failure(NotIterable)
  {
    FirstFailureSpec(results);
    IterateSpec(results, ColumnAsWritten);
  }

  /** With a lone number read as a buffer of one, a tick whose reads all succeeded and
      returned data gathers every value the device sent, channel by channel. */
  lemma GatherKeepsEveryValue<V>(results: seq<Result<Reading<V>, DeviceError>>)
    requires forall k :: 0 <= k < |results| ==> results[k].Success? && !results[k].value.NoData?
    ensures Gather(results, Column).Success?
    ensures var cols := Gather(results, Column).value;
            |cols| == |results| && forall k :: 0 <= k < |results| ==> cols[k] == Values(results[k].value)
  {
    FirstFailureSpec(results);
    IterateSpec(results, Column);
  }

  /** The two readings differ only on a lone number. */
  lemma SingleValueCounterexample<V>(v: V)
    ensures Gather([Success(Single(v))], ColumnAsWritten) == Failure(NotIterable)
    ensures Gather([Success(Single(v))], Column) == Success([[v]])
  {
    SingleValueAbortsTick([Success(Single(v))], 0);
    GatherKeepsEveryValue([Success(Single(v))]);
    var cols := Gather([Success(Single(v))], Column).value;
    assert cols[0] == [v];
    assert cols == [[v]];
  }

  // ---------------------------------------------------------------------------------------
  // One timer tick

  /** What the sink and the device were handed, in order. */
  datatype Activity<V> = Write(record: Record<V>) | StopDevice(outcome: Outcome<DeviceError>)

  function Writes<V>(records: seq<Record<V>>): (acts: seq<Activity<V>>)
    ensures |acts| == |records| && forall i :: 0 <= i < |records| ==> acts[i] == Write(records[i])
  {
    seq(|records|, i requires 0 <= i < |records| => Write(records[i]))
  }

  /** How a tick ended: normally, after stopping the device, or with an error. */
  datatype TickOutcome = Continue | Stopped(stop: Outcome<DeviceError>) | Aborted(error: TickError)

  /** The state `process_manager` works on: the device, the enabled channels, the cycle, the
      start time and timestamps, the stop flag, and what was handed to the sink. */
  class Scheduler<V> {
    const device: TLan08VmHandler
    const channels: seq<nat>
    const cycle: int
    const parse: string -> Option<V>
    var start: int
    var timestamps: seq<int>
    var stopFlag: bool
    var journal: seq<Activity<V>>

    constructor (device: TLan08VmHandler, chBit: int, cycle: int, start: int, parse: string -> Option<V>)
      ensures this.device == device && channels == ExtractBits(chBit, NUM_CH) && this.cycle == cycle
      ensures this.parse == parse && this.start == start
      ensures timestamps == [] && !stopFlag && journal == []
    {
      this.device := device;
      channels := ExtractBits(chBit, NUM_CH);
      this.cycle := cycle;
      this.parse := parse;
      this.start := start;
      timestamps := [];
      stopFlag := false;
      journal := [];
    }

    /** `generate_timestamp()`. */
    method GenerateTimestamp()
      modifies this`timestamps
      ensures timestamps == Timeline(start, cycle)
      ensures |timestamps| == NUM_BUFFER && forall i :: 0 <= i < NUM_BUFFER ==> timestamps[i] == start + i * cycle
    {
      timestamps := Timeline(start, cycle);
    }

    /** `update_starttime()`. */
    method UpdateStarttime()
      requires timestamps != []
      modifies this`start
      ensures start == NextStart(timestamps, cycle)
    {
      start := timestamps[|timestamps| - 1] + cycle;
    }

    /** The interrupt handler of the main loop: ask the next tick to stop the device. */
    method RequestStop()
      modifies this`stopFlag
      ensures stopFlag
    {
      stopFlag := true;
    }

    /** `process_manager`: read every channel, regenerate the timestamps, advance the start
        time, gather the buffers into rows and the rows into records, hand the records to
        the sink in order, and stop the device after them when the stop flag is set. */
    method Tick() returns (o: TickOutcome)
      modifies this`start, this`timestamps, this`journal, device.com`trace, device.com`pending
      ensures timestamps == Timeline(old(start), cycle)
      ensures start == old(start) + NUM_BUFFER * cycle
      ensures var rd := ReadAll(channels, old(device.com.State()));
              var afterReads := old(device.com.State()).Consume(rd.consumed);
              match Gather(Readings(rd.answers, old(device.com.Terminator()), parse), ColumnAsWritten)
              case Failure(e) =>
                o == Aborted(e) && journal == old(journal) &&
                device.com.trace == old(device.com.trace) + rd.events && device.com.State() == afterReads
              case Success(cols) =>
                var written := old(journal) + Writes(Records(Timeline(old(start), cycle), Transpose(cols)));
                if stopFlag then
                  var d := Converse([StopCommand], afterReads);
                  o == Stopped(d.outcome) && journal == written + [StopDevice(d.outcome)] &&
                  device.com.trace == old(device.com.trace) + rd.events + d.events &&
                  device.com.State() == afterReads.Consume(d.consumed)
                else
                  o == Continue && journal == written &&
                  device.com.trace == old(device.com.trace) + rd.events && device.com.State() == afterReads
    {
      var results := ReadChannels();
      GenerateTimestamp();
      UpdateStarttime();
      NextStartAfterTimeline(old(start), cycle);

      var gathered := Gather(results, ColumnAsWritten);
      if gathered.Failure? {
        return Aborted(gathered.error);
      }
      var bufferLst := Transpose(gathered.value);
      var formattedLst := FormatData(timestamps, bufferLst);
      WriteRecords(formattedLst);

      if stopFlag {
        var s := device.Stop();
        journal := journal + [StopDevice(s)];
        return Stopped(s);
      }
      o := Continue;
    }

    /** The reads of a tick: every enabled channel's buffer, in channel order. */
    method ReadChannels() returns (results: seq<Result<Reading<V>, DeviceError>>)
      modifies device.com`trace, device.com`pending
      ensures var rd := ReadAll(channels, old(device.com.State()));
              results == Readings(rd.answers, old(device.com.Terminator()), parse) &&
              device.com.trace == old(device.com.trace) + rd.events &&
              device.com.State() == old(device.com.State()).Consume(rd.consumed)
    {
      ghost var link0 := device.com.State();
      ghost var trace0 := device.com.trace;
      ghost var answers: seq<Result<string, TransportError>> := [];
      results := [];
      for k := 0 to |channels|
        invariant var rd := ReadAll(channels[..k], link0);
                  answers == rd.answers && device.com.trace == trace0 + rd.events &&
                  device.com.State() == link0.Consume(rd.consumed)
        invariant results == Readings(answers, link0.terminator, parse)
      {
        ghost var trace1, link1 := device.com.trace, device.com.State();
        ghost var x := Ask(ReadBufferCommand(channels[k]), link1);
        var res := device.ReadBuffer(channels[k], parse);
        ReadStep(channels, k, link0, trace0, answers, trace1, link1, device.com.trace, device.com.State());
        ReadingsGrow(answers, x.answer, link0.terminator, parse);
        answers := answers + [x.answer];
        results := results + [res];
      }
      assert channels[..|channels|] == channels;
    }

    /** The writes of a tick: every record handed to the sink, in order. */
    method WriteRecords(records: seq<Record<V>>)
      modifies this`journal
      ensures journal == old(journal) + Writes(records)
    {
      for i := 0 to |records|
        invariant journal == old(journal) + Writes(records[..i])
      {
        assert Writes(records[..i + 1]) == Writes(records[..i]) + [Write(records[i])];
        journal := journal + [Write(records[i])];
      }
      assert records[..|records|] == records;
    }
  }

  /** One more channel read, as the tick's loop sees it. */
  lemma ReadStep(chs: seq<nat>, k: nat, link0: Link, trace0: seq<Event>, answers: seq<Result<string, TransportError>>,
                 trace1: seq<Event>, link1: Link, trace2: seq<Event>, link2: Link)
    requires k < |chs|
    requires var rd := ReadAll(chs[..k], link0);
             answers == rd.answers && trace1 == trace0 + rd.events && link1 == link0.Consume(rd.consumed)
    requires var x := Ask(ReadBufferCommand(chs[k]), link1);
             trace2 == trace1 + x.events && link2 == link1.Consume(x.consumed)
    ensures var rd := ReadAll(chs[..k + 1], link0);
            var x := Ask(ReadBufferCommand(chs[k]), link1);
            answers + [x.answer] == rd.answers && trace2 == trace0 + rd.events && link2 == link0.Consume(rd.consumed)
  {
    var cmds := ReadCommands(chs);
    assert ReadCommands(chs[..k]) == cmds[..k];
    assert ReadCommands(chs[..k + 1]) == cmds[..k + 1];
    QueryStep(cmds, k, link0, trace0, answers, trace1, link1, trace2, link2);
  }

  /** One more query after a run of queries. */
  lemma QueryStep(cmds: seq<string>, k: nat, link0: Link, trace0: seq<Event>, answers: seq<Result<string, TransportError>>,
                  trace1: seq<Event>, link1: Link, trace2: seq<Event>, link2: Link)
    requires k < |cmds|
    requires var rd := QueryAll(cmds[..k], link0);
             answers == rd.answers && trace1 == trace0 + rd.events && link1 == link0.Consume(rd.consumed)
    requires var x := Ask(cmds[k], link1);
             trace2 == trace1 + x.events && link2 == link1.Consume(x.consumed)
    ensures var rd := QueryAll(cmds[..k + 1], link0);
            var x := Ask(cmds[k], link1);
            answers + [x.answer] == rd.answers && trace2 == trace0 + rd.events && link2 == link0.Consume(rd.consumed)
  {
    var next := cmds[..k + 1];
    assert next[..k] == cmds[..k] && next[k] == cmds[k];
    var a := QueryAll(cmds[..k], link0);
    var x := Ask(cmds[k], link1);
    Chain(a.events, a.consumed, x.events, x.consumed, link0, trace0, trace1, link1, trace2, link2);
  }

  lemma ReadingsGrow<V>(answers: seq<Result<string, TransportError>>, answer: Result<string, TransportError>, term: string, parse: string -> Option<V>)
    ensures Readings(answers + [answer], term, parse) == Readings(answers, term, parse) + [BufferAnswer(answer, term, parse)]
  {
    var l := Readings(answers + [answer], term, parse);
    var r := Readings(answers, term, parse) + [BufferAnswer(answer, term, parse)];
    assert forall k :: 0 <= k < |l| ==> l[k] == r[k];
  }
}
