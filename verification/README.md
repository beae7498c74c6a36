# weather-monitor, modelled in Dafny

weather-monitor reads a TLAN-08VM eight-channel A/D converter over TCP and stores wind speed and
wind direction in InfluxDB. This project models its core in Dafny and proves properties of the model:

- **channel selection** (`extract_bits`), in `utils.dfy`;
- **the communicator interface** (`BaseCommunicator`), in `core.dfy`. A communicator is a class
  with a connection flag and an event trace. Its device replies come from a scripted queue. The
  `terminator` is a class-level attribute, so it lives in one object that all communicators share;
- **the device handler** (`BaseDeviceHandler`, `TLan08VmHandler`):
  - `protocol.dfy` holds the command texts, the acknowledgement check, and what a run of commands
    does to a link, as functions;
  - `device.dfy` holds the handler class, whose methods are proved against those functions;
- **the acquisition tick of `main.py`**, in `acquisition.dfy`: timestamps, start-time advance,
  `zip(*buffers)`, `format_data`, and `process_manager` as the `Tick` method of a `Scheduler` class;
- **the Python string builtins the handler relies on**: `str(int)`, `split` and `strip`, which
  `read_buffer` and `get_status` use, in `text.dfy`, with the leftmost search `split` cuts at and
  `join` as the inverse of `split`;
- `Option`, `Result` and `Outcome`, in `wrappers.dfy`.

Modelling decisions:

- Exceptions are modelled as values:
  - `DeviceError` is the handler's error. It covers a transport failure, a rejected reply (kept
    verbatim), a token that is not a number, and an empty terminator;
  - `TickError` is a failed tick.
- `float(token)` is a parameter `parse: string -> Option<V>`.
- Time is an integer count of 100 ms, the unit of the device's measurement cycle.
- A voltage range (1, 2.5, 5 or 10 V, an `int` or a `float`) is the text `str(volt)` gives, which
  is all that reaches the device.

Three behaviours of the code that a reader might not expect, all modelled as written:

- `read_buffer` strips `>` from **both** ends of the reply, not only the trailing prompt.
- Records get their fields from `dict(zip(CH_KEYS, row))`. With `CH_KEYS` holding two names, a
  record has at most two fields, whatever the number of enabled channels. `Acquisition.WindFields`
  states this.
- A failed read does not stop the other reads of the tick. The tick fails only when the results are
  collected, after the timestamps have been regenerated and the start time advanced.

## Model

| member | source | states |
|---|---|---|
| Utils.ExtractBits | weathermonitor/utils.py:7-22 | The channels come back in strictly ascending order (so without repeats). A channel `i` is listed iff `0 <= i < num_ch` and bit `i` of the mask is set (two's complement, as Python's `&`). |
| Utils.ExtractBitsExample | weathermonitor/utils.py:18-19 | The example in `extract_bits`'s docstring: mask 138 over 8 channels selects `[1, 3, 7]`. |
| Utils.ExtractBitsLength | weathermonitor/utils.py:21 | At most `num_ch` channels are selected, and none when `num_ch <= 0`. |
| Utils.ExtractBitsIgnoresHighBits | weathermonitor/utils.py:21 | Adding any multiple of `2^num_ch` to the mask leaves the selection unchanged: bits at or above `num_ch` play no part. |
| Utils.ExtractBitsNone | weathermonitor/utils.py:21 | Mask 0 selects no channel. |
| Utils.ExtractBitsAll | weathermonitor/utils.py:21 | Mask `2^n - 1` selects every channel `0 .. n-1`. |
| Utils.ExtractBitsUnique | weathermonitor/utils.py:21 | The result is the only strictly ascending list holding exactly the selected channels. |
| Text.NatToStringRoundTrip | weathermonitor/device.py:114 | Reading back the decimal digits `str(n)` writes gives `n` again. |
| Text.IntToStringInjective | weathermonitor/device.py:129 | Different integers format differently, so a command text determines its arguments. |
| Text.IndexOfLeftmost | weathermonitor/device.py:98 | The search `split` cuts at returns an occurrence of the separator with none before it, and reports none only when there is none. |
| Text.SplitPiecesAreFree | weathermonitor/device.py:98 | No piece of `split` contains the separator. |
| Text.JoinSplit | weathermonitor/device.py:98 | Joining the pieces of `split` with the separator gives the text back. |
| Text.SplitLines | weathermonitor/device.py:98 | Splitting tokens that are each followed by the separator gives the tokens back, in order, then the pieces of the rest. |
| Text.LStrip | weathermonitor/device.py:98 | `lstrip` keeps a suffix, removes only characters of the set, and leaves none at the front. |
| Text.RStrip | weathermonitor/device.py:98 | `rstrip` keeps a prefix, removes only characters of the set, and leaves none at the end. |
| Text.Strip | weathermonitor/device.py:180-182 | After `strip`, neither end of the text is a character of the set. |
| Text.StripIsSlice | weathermonitor/device.py:98 | What `strip` keeps is one contiguous slice of the input, and only characters of the set lie outside it. |
| Text.StripPadding | weathermonitor/device.py:180-182 | Text whose ends are not in the set, padded on both sides with characters of the set, strips back to itself. |
| Core.AskConsumesAtMostOne | weathermonitor/core.py:85-96 | A query uses at most one reply. It succeeds iff the link is open and a reply is queued, and then returns that reply unchanged. On an open link the framed message is sent first. |
| Core.Communicator.constructor | weathermonitor/core.py:35-37 | The communicator opens iff arguments are given. |
| Core.Communicator.Open | weathermonitor/communicator.py:45-50 | Opening connects, and records a connection only when the link was not already open. |
| Core.Communicator.Close | weathermonitor/communicator.py:61-64 | Closing leaves the link closed. Without an open connection it is an error and nothing is recorded. |
| Core.Communicator.Finalize | weathermonitor/core.py:39-41 | The destructor closes only an open connection. |
| Core.Communicator.Send | weathermonitor/communicator.py:78-79 | Exactly `msg + terminator` goes on the wire. On a closed link it is an error and nothing is sent. |
| Core.Communicator.Receive | weathermonitor/communicator.py:93-94 | Receiving takes the next queued reply, unchanged. It times out when none is queued and fails on a closed link. The queue and trace change accordingly. |
| Core.Communicator.Query | weathermonitor/core.py:94-96 | A query is one send followed by one receive, and returns the reply as received. |
| Core.Communicator.SetTerminator | weathermonitor/core.py:98-109 | Every communicator sharing the class sees the new terminator. |
| Protocol.VoltRangeCommands | weathermonitor/device.py:54-55 | One voltage-range command per channel, in channel order. |
| Protocol.InitCommandAt | weathermonitor/device.py:53-58 | `initialize` sends, in order: the channel mask, a range command for each enabled channel in ascending order, then the interval, the cycle and the repeat count. |
| Protocol.InitConfiguresEnabledChannels | weathermonitor/device.py:53-58 | `initialize` sends a range command for channel `c` iff `c < 8` and bit `c` of the mask is set. |
| Protocol.VoltRangeCommandInjective | weathermonitor/device.py:129 | Different channels get different range commands. |
| Protocol.Check | weathermonitor/device.py:186-189 | A reply passes iff it is exactly the expected text. Any other reply is rejected with the reply as received. |
| Protocol.StepIsSendThenValidate | weathermonitor/device.py:114-116 | A configuration command is a send followed by one validating receive. On a closed link nothing is sent. |
| Protocol.TranscriptEvents | weathermonitor/device.py:53-58 | In the trace of an acknowledged run, each command is sent with the terminator and is followed by its acknowledgement. |
| Protocol.ConverseAcked | weathermonitor/device.py:53-58 | With an acknowledgement queued for each command, every command is sent in order and the run succeeds, using one reply per command. |
| Protocol.ConverseRejected | weathermonitor/device.py:185-189 | The first reply that is not an acknowledgement rejects its command with that reply. The earlier commands stay sent and no later command is sent. |
| Protocol.ConverseTimedOut | weathermonitor/device.py:185-189 | When the replies run out, the next command is sent and times out. No later command is sent. |
| Protocol.ConverseOutcome | weathermonitor/device.py:53-58 | The complete behaviour of a run of commands: on a closed link, with enough acknowledgements, at a rejecting reply, and at a timeout. |
| Protocol.ConverseAppend | weathermonitor/device.py:53-58 | Running two lists of commands one after the other is running their concatenation, and the second list is never sent when the first fails. |
| Protocol.ConverseAbandon | weathermonitor/device.py:53-58 | After a failed command nothing more is sent: no rollback and no retry. |
| Protocol.ParseAllSpec | weathermonitor/device.py:96-99 | Parsing succeeds iff every token parses, giving the values in order. Otherwise the error names the first token that does not parse. |
| Protocol.NoDataOnlyForEmptyBuffer | weathermonitor/device.py:93-94 | A buffer read reports no data exactly for the empty-buffer reply. |
| Protocol.BufferPieces | weathermonitor/device.py:98 | For a reply made of terminated tokens, an unterminated tail and the prompt, the pieces kept after dropping the last are exactly the tokens. |
| Protocol.BufferRoundTrip | weathermonitor/device.py:96-101 | Such a reply reads back as its tokens parsed in order, with one value unwrapped. The unterminated tail is lost, and a bare prompt gives an empty list rather than no data. |
| Protocol.StatusRoundTrip | weathermonitor/device.py:180-182 | A status padded with terminator and prompt characters reads back as itself. |
| Protocol.StatusReply | weathermonitor/device.py:180-182 | The reply `status + "\r\n" + ">"` reads back as the status. |
| Device.TLan08VmHandler.constructor | weathermonitor/core.py:134-136 | The handler keeps its communicator and opens it once. |
| Device.TLan08VmHandler.Connect | weathermonitor/device.py:35-42 | Construction installs `"\r\n"` on the communicator class and receives once. It succeeds iff the greeting is exactly `">"`, and otherwise fails with the greeting. |
| Device.TLan08VmHandler.Open | weathermonitor/core.py:138-146 | Opening delegates to the communicator. |
| Device.TLan08VmHandler.Close | weathermonitor/core.py:148-156 | Closing delegates to the communicator. |
| Device.TLan08VmHandler.ValidateSender | weathermonitor/device.py:185-189 | Validation consumes one reply and succeeds iff it is `"OK" + terminator + ">"`. Otherwise it fails with the reply. |
| Device.TLan08VmHandler.Command | weathermonitor/device.py:170-171 | Send one command, then validate. The trace, the queue and the result are those of one step. |
| Device.TLan08VmHandler.Start | weathermonitor/device.py:61-69 | `start` runs exactly `"conv begin"` and its validation. |
| Device.TLan08VmHandler.Stop | weathermonitor/device.py:71-79 | `stop` runs exactly `"conv end"` and its validation. |
| Device.TLan08VmHandler.SetCh | weathermonitor/device.py:104-116 | Runs `"set ch {ch_bit}"` and its validation. |
| Device.TLan08VmHandler.SetVoltRange | weathermonitor/device.py:118-131 | Runs `"set ra ch{ch} {volt}v"` and its validation. The range is taken as the text `str(volt)` gives, so `2.5` is as expressible as `10`. |
| Device.TLan08VmHandler.SetMeasCycle | weathermonitor/device.py:133-145 | Runs `"set cyclelen {meas_cycle}"` and its validation. |
| Device.TLan08VmHandler.SetChInterval | weathermonitor/device.py:147-159 | Runs `"set interval {interval}"` and its validation. |
| Device.TLan08VmHandler.SetRepTimes | weathermonitor/device.py:161-172 | Runs `"set re {num_rpt}"` and its validation. |
| Device.TLan08VmHandler.SetVoltRanges | weathermonitor/device.py:54-55 | The loop over the enabled channels does what the run of their range commands does, stopping at the first failure. |
| Device.TLan08VmHandler.Initialize | weathermonitor/device.py:44-59 | `initialize` does exactly what the run of its command list does: same trace, same replies consumed, same outcome. |
| Device.TLan08VmHandler.ReadBuffer | weathermonitor/device.py:81-102 | `read_buffer` is one `"conv read ch{ch}"` query, and its result is that reply read as a buffer. |
| Device.TLan08VmHandler.GetStatus | weathermonitor/device.py:174-183 | `get_status` is one `"get s"` query, and its result is that reply stripped of terminator and prompt characters. |
| Acquisition.NextStartAfterTimeline | main.py:52-56 | Advancing from a fresh timeline moves the start time by exactly `NUM_BUFFER` cycles. |
| Acquisition.StartAfterTicks | main.py:74-75 | After `n` ticks the start time is `start + n * NUM_BUFFER * cycle`: no drift. |
| Acquisition.TimelinesContiguous | main.py:41-56 | The timestamps of `n` ticks form one unbroken sequence `start + i * cycle`, with no gap and no overlap between ticks. |
| Acquisition.TicksFollowTimelines | main.py:74-75 | For start times that move as `Tick` moves them, one buffer per tick, the ticks generate exactly `Timelines` and end at `StartAfter`. |
| Acquisition.TransposeShape | main.py:77 | `zip(*buffers)` has as many rows as the shortest buffer, and none without buffers. Row `j` holds the `j`-th value of every buffer, in buffer order. |
| Acquisition.FieldsOfDistinctKeys | main.py:59 | The fields pair the `k`-th key with the `k`-th value, as far as the shorter of keys and row goes, and hold nothing else. |
| Acquisition.WindFields | main.py:59 | With the configured keys, the first value is the wind speed and the second the wind direction. Further values are dropped. |
| Acquisition.FormatData | main.py:58-68 | `format_data` gives one record per timestamp and row, as many as the shorter of the two, in order. Each record holds its timestamp, its fields and the measurement name. |
| Acquisition.QueryAllAnswers | main.py:72-73 | With every enabled channel queried in turn, queued replies go to the queries in order, one each, and the rest time out. On a closed link every query fails. |
| Acquisition.FirstFailureSpec | main.py:77 | Collecting the results raises the error of the first failed read, in channel order, and only if some read failed. |
| Acquisition.IterateSpec | main.py:77 | Once every read succeeded, the buffers are gathered iff every reading is iterable, and each buffer is its channel's reading. |
| Acquisition.SingleValueAbortsTick | main.py:77 | As written, a channel whose buffer held one value makes the tick fail, even though every read succeeded. |
| Acquisition.GatherKeepsEveryValue | main.py:77 | With a lone value taken as a buffer of one, a tick whose reads all returned data gathers every value, channel by channel. |
| Acquisition.SingleValueCounterexample | weathermonitor/device.py:100-101 | One channel returning one value: the tick fails as written, and yields that value with the correction. |
| Acquisition.Scheduler.constructor | main.py:36 | The enabled channels are those of the channel mask, and nothing has been written yet. |
| Acquisition.Scheduler.GenerateTimestamp | main.py:41-50 | Exactly `NUM_BUFFER` timestamps, the `i`-th being `start + i * cycle`. |
| Acquisition.Scheduler.UpdateStarttime | main.py:52-56 | The new start is one cycle after the last timestamp. |
| Acquisition.Scheduler.RequestStop | main.py:110-111 | The interrupt sets the stop flag. |
| Acquisition.Scheduler.ReadChannels | main.py:72-73 | Every enabled channel's buffer is read, in channel order, one query each. |
| Acquisition.Scheduler.WriteRecords | main.py:80-81 | Every record is handed to the sink, in order. |
| Acquisition.Scheduler.Tick | main.py:71-86 | A tick reads all channels, then regenerates the timestamps from the old start, then advances the start by one buffer. A failed read aborts the tick before any write, with the first failed channel's error. So does a reading `zip` cannot iterate, as the code is written: no data, or a buffer of a single value. Otherwise the tick writes one record per row, in order, and only after all writes stops the device if the stop flag is set. |

## Left out

- Sockets are not modelled. Connecting, timeouts, byte limits, and the encoding and decoding in
  `weathermonitor/communicator.py` are left out. Each device reply is one queued string, and an
  empty queue stands for a read timeout.
- `SocketCom`'s own `__init__` stores host, port and timeout without opening. The model's
  communicator constructor follows `BaseCommunicator.__init__`.
- Only the guard conditions of `ABCMeta`, abstract methods and destructor timing are modelled.
- `ThreadPoolExecutor` is not modelled. The reads of a tick are sequential in channel order, and
  every read runs even when an earlier one failed.
- `SIGALRM`, `setitimer`, the busy-wait loops and `KeyboardInterrupt` become two method calls,
  `Tick` and `RequestStop`.
- `sys.exit` after the stop is not modelled. The tick returns `Stopped` instead.
- Acquisition.Scheduler.Tick: an aborted tick returns `Aborted`, and the model allows further
  ticks. In the code the exception escapes `process_manager`, is not caught by the
  `KeyboardInterrupt` handler of the main loop, and ends the process without stopping the device.
  A `KeyboardInterrupt` that lands in the middle of a tick is not modelled either: `RequestStop`
  only happens between ticks.
- The InfluxDB client is not modelled. Writes are appended to a journal, one activity per record.
- Environment variables and the start-up sequence of the `__main__` block (`initialize`, `start`,
  the first start time) are left out. The operations it calls are modelled.
- `strftime`/`strptime` and float seconds are not modelled. Timestamps are integers in 100 ms
  units, and formatting then parsing a timestamp is the identity.
- `float()` is a parameter, so no floating-point semantics are modelled.
- `weathermonitor/exception.py` is not modelled. Its error class becomes `DeviceError.Rejected`,
  which carries the raw reply.
- Acquisition.Scheduler.UpdateStarttime: requires a non-empty timestamp list. With an empty list
  Python raises `IndexError`. That path is not modelled, because its only caller regenerates the
  timestamps first.
- Device.TLan08VmHandler.SetVoltRanges, Acquisition.Scheduler.ReadChannels and
  Acquisition.Scheduler.WriteRecords are the loops of `initialize` and `process_manager`, written as
  methods of their own.

## Findings

| source | as written | input that shows it | evidently intended | confidence | as-written member | corrected member |
|---|---|---|---|---|---|---|
| weathermonitor/device.py:100-101 | `read_buffer` unwraps a one-value list to a bare float. `zip(*...)` in `process_manager` (main.py:77) then raises `TypeError`, and the whole tick is lost. | An enabled channel whose buffer reply holds exactly one value, e.g. `"1.5\r\n>"`. | Treat a lone value as a buffer of one, so the tick keeps every value. | not executed | Acquisition.SingleValueAbortsTick | Acquisition.GatherKeepsEveryValue |
