/** The TLAN-08VM handler of weathermonitor/device.py together with the device-handler base of
    weathermonitor/core.py: each operation drives the communicator and is proved to do what
    the dialogue functions of the Protocol module describe. */
module Device {
  import opened Wrappers
  import opened Utils
  import opened Core
  import opened Protocol

  class TLan08VmHandler {
    const com: Communicator
    const recvTermChar := ReadyPrompt

    /** `BaseDeviceHandler.__init__`: keep the communicator and open it. */
    constructor (com: Communicator)
      modifies com`connection, com`trace
      ensures this.com == com && recvTermChar == ReadyPrompt
      ensures com.connection
      ensures com.trace == old(com.trace) + if old(com.connection) then [] else [Connected]
    {
      this.com := com;
      new;
      Open();
    }

    /** `TLan08VmHandler.__init__`: build the handler, install the device's terminator on the
        communicator class, then wait for the prompt; any other greeting is an error carrying
        what was received. */
    static method Connect(com: Communicator) returns (r: Result<TLan08VmHandler, DeviceError>)
      modifies com`connection, com`trace, com`pending, com.cls
      ensures com.cls.terminator == DeviceTerminator
      ensures var link := old(com.State()).(connected := true, terminator := DeviceTerminator);
              var x := Listen(link);
              com.trace == old(com.trace) + (if old(com.connection) then [] else [Connected]) + x.events &&
              com.State() == link.Consume(x.consumed) &&
              (r.Success? <==> Check(x.answer, ReadyPrompt) == Pass) &&
              (r.Failure? ==> Fail(r.error) == Check(x.answer, ReadyPrompt))
      ensures r.Success? ==> fresh(r.value) && r.value.com == com && r.value.recvTermChar == ReadyPrompt
    {
      var h := new TLan08VmHandler(com);
      com.SetTerminator(DeviceTerminator);
      var ret := com.Receive();
      match Check(ret, h.recvTermChar)
      case Pass => r := Success(h);
      case Fail(e) => r := Failure(e);
    }

    /** `open()`: delegated to the communicator. */
    method Open()
      modifies com`connection, com`trace
      ensures com.connection
      ensures com.trace == old(com.trace) + if old(com.connection) then [] else [Connected]
    {
      com.Open();
    }

    /** `close()`: delegated to the communicator. */
    method Close() returns (r: Outcome<TransportError>)
      modifies com`connection, com`trace
      ensures !com.connection
      ensures r == if old(com.connection) then Pass else Fail(NotConnected)
      ensures com.trace == old(com.trace) + if old(com.connection) then [Disconnected] else []
    {
      r := com.Close();
    }

    /** `_validate_sender`: one receive, which must be the acknowledgement. */
    method ValidateSender() returns (r: Outcome<DeviceError>)
      modifies com`trace, com`pending
      ensures var d := Validate(old(com.State()));
              com.trace == old(com.trace) + d.events && com.State() == old(com.State()).Consume(d.consumed) &&
              r == d.outcome
    {
      var validMsg := "OK" + com.cls.terminator + recvTermChar;
      var ret := com.Receive();
      r := Check(ret, validMsg);
    }

    /** Send one command and validate the reply, as every `set_*`, `start` and `stop` does. */
    method Command(cmd: string) returns (r: Outcome<DeviceError>)
      modifies com`trace, com`pending
      ensures var d := Step(cmd, old(com.State()));
              com.trace == old(com.trace) + d.events && com.State() == old(com.State()).Consume(d.consumed) &&
              r == d.outcome
    {
      ghost var link := com.State();
      ghost var trace0 := com.trace;
      StepIsSendThenValidate(cmd, link);
      var sent := com.Send(cmd);
      if sent.Fail? {
        return Fail(Transport(sent.error));
      }
      r := ValidateSender();
      assert trace0 + [Sent(cmd + link.terminator)] + Validate(link).events ==
             trace0 + ([Sent(cmd + link.terminator)] + Validate(link).events);
    }

    /** `start()`. */
    method Start() returns (r: Outcome<DeviceError>)
      modifies com`trace, com`pending
      ensures var d := Converse([StartCommand], old(com.State()));
              com.trace == old(com.trace) + d.events && com.State() == old(com.State()).Consume(d.consumed) &&
              r == d.outcome
    {
      ConverseOne(StartCommand, com.State());
      r := Command(StartCommand);
    }

    /** `stop()`. */
    method Stop() returns (r: Outcome<DeviceError>)
      modifies com`trace, com`pending
      ensures var d := Converse([StopCommand], old(com.State()));
              com.trace == old(com.trace) + d.events && com.State() == old(com.State()).Consume(d.consumed) &&
              r == d.outcome
    {
      ConverseOne(StopCommand, com.State());
      r := Command(StopCommand);
    }

    /** `set_ch(ch_bit)`. */
    method SetCh(chBit: int) returns (r: Outcome<DeviceError>)
      modifies com`trace, com`pending
      ensures var d := Converse([SetChCommand(chBit)], old(com.State()));
              com.trace == old(com.trace) + d.events && com.State() == old(com.State()).Consume(d.consumed) &&
              r == d.outcome
    {
      ConverseOne(SetChCommand(chBit), com.State());
      r := Command(SetChCommand(chBit));
    }

    /** `set_volt_range(ch, volt)`. */
    method SetVoltRange(ch: int, volt: string) returns (r: Outcome<DeviceError>)
      modifies com`trace, com`pending
      ensures var d := Converse([SetVoltRangeCommand(ch, volt)], old(com.State()));
              com.trace == old(com.trace) + d.events && com.State() == old(com.State()).Consume(d.consumed) &&
              r == d.outcome
    {
      ConverseOne(SetVoltRangeCommand(ch, volt), com.State());
      r := Command(SetVoltRangeCommand(ch, volt));
    }

    /** `set_meas_cycle(meas_cycle)`. */
    method SetMeasCycle(measCycle: int) returns (r: Outcome<DeviceError>)
      modifies com`trace, com`pending
      ensures var d := Converse([SetMeasCycleCommand(measCycle)], old(com.State()));
              com.trace == old(com.trace) + d.events && com.State() == old(com.State()).Consume(d.consumed) &&
              r == d.outcome
    {
      ConverseOne(SetMeasCycleCommand(measCycle), com.State());
      r := Command(SetMeasCycleCommand(measCycle));
    }

    /** `set_ch_interval(interval)`. */
    method SetChInterval(interval: int) returns (r: Outcome<DeviceError>)
      modifies com`trace, com`pending
      ensures var d := Converse([SetChIntervalCommand(interval)], old(com.State()));
              com.trace == old(com.trace) + d.events && com.State() == old(com.State()).Consume(d.consumed) &&
              r == d.outcome
    {
      ConverseOne(SetChIntervalCommand(interval), com.State());
      r := Command(SetChIntervalCommand(interval));
    }

    /** `set_rep_times(num_rpt)`. */
    method SetRepTimes(numRpt: int) returns (r: Outcome<DeviceError>)
      modifies com`trace, com`pending
      ensures var d := Converse([SetRepTimesCommand(numRpt)], old(com.State()));
              com.trace == old(com.trace) + d.events && com.State() == old(com.State()).Consume(d.consumed) &&
              r == d.outcome
    {
      ConverseOne(SetRepTimesCommand(numRpt), com.State());
      r := Command(SetRepTimesCommand(numRpt));
    }

    /** The loop of `initialize` over the enabled channels: one voltage-range command per
        channel, in order, stopping at the first one the device does not acknowledge. */
    method SetVoltRanges(chs: seq<nat>, volt: string) returns (r: Outcome<DeviceError>)
      modifies com`trace, com`pending
      ensures var d := Converse(VoltRangeCommands(chs, volt), old(com.State()));
              com.trace == old(com.trace) + d.events && com.State() == old(com.State()).Consume(d.consumed) &&
              r == d.outcome
    {
      ghost var link0 := com.State();
      ghost var trace0 := com.trace;
      ghost var cmds := VoltRangeCommands(chs, volt);
      r := Pass;
      assert cmds[..0] == [];
      for k := 0 to |chs|
        invariant r == Pass
        invariant var d := Converse(cmds[..k], link0);
                  d.outcome == Pass && com.trace == trace0 + d.events && com.State() == link0.Consume(d.consumed)
      {
        ghost var trace1, link1 := com.trace, com.State();
        r := SetVoltRange(chs[k], volt);
        PrefixGrows(cmds, k);
        ConverseExtend(cmds[..k], [cmds[k]], cmds[..k + 1], link0, trace0, trace1, link1, com.trace, com.State());
        if r.Fail? {
          PrefixAndRest(cmds, k + 1);
          ConverseAbandon(cmds[..k + 1], cmds[k + 1..], cmds, link0);
          return;
        }
      }
      assert cmds[..|chs|] == cmds;
    }

    /** `initialize(...)`: the channel mask, a voltage range for each enabled channel in
        ascending order, the channel interval, the measurement cycle and the repeat count,
        stopping at the first command the device does not acknowledge. */
    method Initialize(chBit: int, volt: string, interval: int, measCycle: int, numRpt: int) returns (r: Outcome<DeviceError>)
      modifies com`trace, com`pending
      ensures var d := Converse(InitCommands(chBit, volt, interval, measCycle, numRpt), old(com.State()));
              com.trace == old(com.trace) + d.events && com.State() == old(com.State()).Consume(d.consumed) &&
              r == d.outcome
    {
      ghost var link0 := com.State();
      ghost var trace0 := com.trace;
      ghost var ranges := VoltRangeCommands(ExtractBits(chBit, NUM_CH), volt);
      ghost var c1 := [SetChCommand(chBit)];
      ghost var c2 := c1 + ranges;
      ghost var c3 := c2 + [SetChIntervalCommand(interval)];
      ghost var c4 := c3 + [SetMeasCycleCommand(measCycle)];
      ghost var all := c4 + [SetRepTimesCommand(numRpt)];

      r := SetCh(chBit);
      if r.Fail? {
        ConverseAbandon(c1, ranges, c2, link0);
        ConverseAbandon(c2, [SetChIntervalCommand(interval)], c3, link0);
        ConverseAbandon(c3, [SetMeasCycleCommand(measCycle)], c4, link0);
        ConverseAbandon(c4, [SetRepTimesCommand(numRpt)], all, link0);
        return;
      }
      ghost var trace1, link1 := com.trace, com.State();
      r := SetVoltRanges(ExtractBits(chBit, NUM_CH), volt);
      ConverseExtend(c1, ranges, c2, link0, trace0, trace1, link1, com.trace, com.State());
      if r.Fail? {
        ConverseAbandon(c2, [SetChIntervalCommand(interval)], c3, link0);
        ConverseAbandon(c3, [SetMeasCycleCommand(measCycle)], c4, link0);
        ConverseAbandon(c4, [SetRepTimesCommand(numRpt)], all, link0);
        return;
      }
      trace1, link1 := com.trace, com.State();
      r := SetChInterval(interval);
      ConverseExtend(c2, [SetChIntervalCommand(interval)], c3, link0, trace0, trace1, link1, com.trace, com.State());
      if r.Fail? {
        ConverseAbandon(c3, [SetMeasCycleCommand(measCycle)], c4, link0);
        ConverseAbandon(c4, [SetRepTimesCommand(numRpt)], all, link0);
        return;
      }
      trace1, link1 := com.trace, com.State();
      r := SetMeasCycle(measCycle);
      ConverseExtend(c3, [SetMeasCycleCommand(measCycle)], c4, link0, trace0, trace1, link1, com.trace, com.State());
      if r.Fail? {
        ConverseAbandon(c4, [SetRepTimesCommand(numRpt)], all, link0);
        return;
      }
      trace1, link1 := com.trace, com.State();
      r := SetRepTimes(numRpt);
      ConverseExtend(c4, [SetRepTimesCommand(numRpt)], all, link0, trace0, trace1, link1, com.trace, com.State());
    }

    /** `read_buffer(ch)`: ask for a channel's buffer and read the reply. */
    method ReadBuffer<V>(ch: int, parse: string -> Option<V>) returns (r: Result<Reading<V>, DeviceError>)
      modifies com`trace, com`pending
      ensures var x := Ask(ReadBufferCommand(ch), old(com.State()));
              com.trace == old(com.trace) + x.events && com.State() == old(com.State()).Consume(x.consumed) &&
              r == BufferAnswer(x.answer, old(com.Terminator()), parse)
    {
      var ret := com.Query(ReadBufferCommand(ch));
      if ret.Failure? {
        return Failure(Transport(ret.error));
      }
      r := InterpretBuffer(ret.value, com.cls.terminator, parse);
    }

    /** `get_status()`: ask for the status and strip terminator and prompt characters. */
    method GetStatus() returns (r: Result<string, DeviceError>)
      modifies com`trace, com`pending
      ensures var x := Ask(StatusCommand, old(com.State()));
              com.trace == old(com.trace) + x.events && com.State() == old(com.State()).Consume(x.consumed) &&
              r == StatusAnswer(x.answer, old(com.Terminator()))
    {
      var ret := com.Query(StatusCommand);
      if ret.Failure? {
        return Failure(Transport(ret.error));
      }
      r := Success(InterpretStatus(ret.value, com.cls.terminator));
    }
  }
}
