/** The TLAN-08VM command/response protocol of weathermonitor/device.py, as values: the command
    texts the handler sends, the replies it accepts, how a reply is read back, and what a run of
    acknowledged commands does to a link. The handler class in device.dfy is proved against
    these definitions. */
module Protocol {
  import opened Wrappers
  import opened Utils
  import opened Text
  import opened Core

  /** Number of channels of the converter. */
  const NUM_CH := 8

  /** The prompt the device ends every reply with (`recv_term_char`). */
  const ReadyPrompt := ">"

  /** The terminator the handler installs on the communicator class. */
  const DeviceTerminator := "\r\n"

  /** Why a handler operation failed: the link failed, the device answered something other
      than what was expected (the raw reply is kept), a buffer token is not a number, or the
      reply cannot be split because the terminator is empty. */
  datatype DeviceError = Transport(cause: TransportError) | Rejected(response: string) | BadNumber(token: string) | EmptySeparator

  function SetChCommand(chBit: int): string {
    "set ch " + IntToString(chBit)
  }

  /** `volt` is the range as `str` writes it: "1", "2.5", "5" or "10". */
  function SetVoltRangeCommand(ch: int, volt: string): string {
    "set ra ch" + IntToString(ch) + " " + volt + "v"
  }

  function SetMeasCycleCommand(measCycle: int): string {
    "set cyclelen " + IntToString(measCycle)
  }

  function SetChIntervalCommand(interval: int): string {
    "set interval " + IntToString(interval)
  }

  function SetRepTimesCommand(numRpt: int): string {
    "set re " + IntToString(numRpt)
  }

  const StartCommand := "conv begin"
  const StopCommand := "conv end"
  const StatusCommand := "get s"

  function ReadBufferCommand(ch: int): string {
    "conv read ch" + IntToString(ch)
  }

  /** The acknowledgement `_validate_sender` waits for. */
  function AckReply(term: string): string {
    "OK" + term + ReadyPrompt
  }

  /** The reply meaning that a channel's buffer holds nothing. */
  function EmptyBufferReply(term: string): string {
    "Empty buffer" + term + ReadyPrompt
  }

  /** One voltage-range command per channel, in the order of `chs`. */
  function VoltRangeCommands(chs: seq<nat>, volt: string): (cmds: seq<string>)
    ensures |cmds| == |chs|
    ensures forall k :: 0 <= k < |chs| ==> cmds[k] == SetVoltRangeCommand(chs[k], volt)
  {
    seq(|chs|, k requires 0 <= k < |chs| => SetVoltRangeCommand(chs[k], volt))
  }

  /** The commands `initialize` sends, in order. */
  function InitCommands(chBit: int, volt: string, interval: int, measCycle: int, numRpt: int): seq<string> {
    [SetChCommand(chBit)] + VoltRangeCommands(ExtractBits(chBit, NUM_CH), volt) +
    [SetChIntervalCommand(interval)] + [SetMeasCycleCommand(measCycle)] + [SetRepTimesCommand(numRpt)]
  }

  // ---------------------------------------------------------------------------------------
  // Command texts can be told apart

  lemma DigitsBeforeSpace(p: string, a: string, x: string, b: string, y: string)
    requires AllDigits(a) && AllDigits(b)
    requires p + a + " " + x == p + b + " " + y
    ensures a == b
  {
    var s := p + a + " " + x;
    assert s[|p| + |a|] == ' ';
    assert s[|p| + |b|] == ' ';
    assert a == s[|p|..|p| + |a|];
    assert b == s[|p|..|p| + |b|];
  }

  /** Different channels get different voltage-range commands. */
  lemma VoltRangeCommandInjective(c: nat, d: nat, volt: string)
    requires SetVoltRangeCommand(c, volt) == SetVoltRangeCommand(d, volt)
    ensures c == d
  {
    var tail := volt + "v";
    assert SetVoltRangeCommand(c, volt) == "set ra ch" + NatToString(c) + " " + tail;
    assert SetVoltRangeCommand(d, volt) == "set ra ch" + NatToString(d) + " " + tail;
    DigitsBeforeSpace("set ra ch", NatToString(c), tail, NatToString(d), tail);
    IntToStringInjective(c, d);
  }

  /** The sixth character tells the configuration commands apart: `h`, `a`, `n`, `y` and `e`
      for the channel, range, interval, cycle and repetition settings. */
  lemma CommandMarks(chBit: int, ch: int, volt: string, interval: int, measCycle: int, numRpt: int)
    ensures |SetChCommand(chBit)| > 5 && SetChCommand(chBit)[5] == 'h'
    ensures |SetVoltRangeCommand(ch, volt)| > 5 && SetVoltRangeCommand(ch, volt)[5] == 'a'
    ensures |SetChIntervalCommand(interval)| > 5 && SetChIntervalCommand(interval)[5] == 'n'
    ensures |SetMeasCycleCommand(measCycle)| > 5 && SetMeasCycleCommand(measCycle)[5] == 'y'
    ensures |SetRepTimesCommand(numRpt)| > 5 && SetRepTimesCommand(numRpt)[5] == 'e'
  {
  }

  /** The layout of the `initialize` command list. */
  lemma InitCommandsLayout(chBit: int, volt: string, interval: int, measCycle: int, numRpt: int)
    ensures var cmds := InitCommands(chBit, volt, interval, measCycle, numRpt);
            var chs := ExtractBits(chBit, NUM_CH);
            |cmds| == |chs| + 4 &&
            cmds[0] == SetChCommand(chBit) &&
            (forall k :: 0 <= k < |chs| ==> cmds[k + 1] == SetVoltRangeCommand(chs[k], volt)) &&
            cmds[|chs| + 1] == SetChIntervalCommand(interval) &&
            cmds[|chs| + 2] == SetMeasCycleCommand(measCycle) &&
            cmds[|chs| + 3] == SetRepTimesCommand(numRpt)
  {
    var chs := ExtractBits(chBit, NUM_CH);
    FiveParts(SetChCommand(chBit), VoltRangeCommands(chs, volt), SetChIntervalCommand(interval),
              SetMeasCycleCommand(measCycle), SetRepTimesCommand(numRpt));
  }

  lemma FiveParts(a: string, mid: seq<string>, b: string, c: string, d: string)
    ensures var s := [a] + mid + [b] + [c] + [d];
            |s| == |mid| + 4 && s[0] == a && (forall k :: 0 <= k < |mid| ==> s[k + 1] == mid[k]) &&
            s[|mid| + 1] == b && s[|mid| + 2] == c && s[|mid| + 3] == d
  {
    var f0 := [a] + mid;
    var f1 := f0 + [b];
    var f2 := f1 + [c];
    var s := f2 + [d];
    assert forall k :: 0 <= k < |mid| ==> f0[k + 1] == mid[k];
    assert forall k :: 0 <= k < |f0| ==> f1[k] == f0[k];
    assert forall k :: 0 <= k < |f1| ==> f2[k] == f1[k];
    assert forall k :: 0 <= k < |f2| ==> s[k] == f2[k];
  }

  lemma InitRangeCommandIsForEnabledChannel(chBit: int, c: nat, volt: string, interval: int, measCycle: int, numRpt: int)
    requires SetVoltRangeCommand(c, volt) in InitCommands(chBit, volt, interval, measCycle, numRpt)
    ensures c in ExtractBits(chBit, NUM_CH)
  {
    var chs := ExtractBits(chBit, NUM_CH);
    CommandMarks(chBit, c, volt, interval, measCycle, numRpt);
    AmongTheMiddle(SetVoltRangeCommand(c, volt), SetChCommand(chBit), VoltRangeCommands(chs, volt),
                   SetChIntervalCommand(interval), SetMeasCycleCommand(measCycle), SetRepTimesCommand(numRpt));
    RangeCommandAmong(c, chs, volt);
  }

  /** A command whose sixth character is `a` found in a list of that layout is one of the
      voltage-range commands in the middle. */
  lemma AmongTheMiddle(x: string, a: string, mid: seq<string>, b: string, e: string, f: string)
    requires |x| > 5 && x[5] == 'a'
    requires |a| > 5 && a[5] == 'h' && |b| > 5 && b[5] == 'n' && |e| > 5 && e[5] == 'y' && |f| > 5 && f[5] == 'e'
    requires x in [a] + mid + [b] + [e] + [f]
    ensures x in mid
  {
    var cmds := [a] + mid + [b] + [e] + [f];
    FiveParts(a, mid, b, e, f);
    var j :| 0 <= j < |cmds| && cmds[j] == x;
    assert mid[j - 1] == x;
  }

  /** The voltage-range command of channel `c` is among those of `chs` only if `c` is. */
  lemma RangeCommandAmong(c: nat, chs: seq<nat>, volt: string)
    requires SetVoltRangeCommand(c, volt) in VoltRangeCommands(chs, volt)
    ensures c in chs
  {
    var cmds := VoltRangeCommands(chs, volt);
    var j :| 0 <= j < |cmds| && cmds[j] == SetVoltRangeCommand(c, volt);
    VoltRangeCommandInjective(c, chs[j], volt);
  }

  lemma InitRangeCommandForEnabledChannel(chBit: int, c: nat, volt: string, interval: int, measCycle: int, numRpt: int)
    requires c in ExtractBits(chBit, NUM_CH)
    ensures SetVoltRangeCommand(c, volt) in InitCommands(chBit, volt, interval, measCycle, numRpt)
  {
    var chs := ExtractBits(chBit, NUM_CH);
    InitCommandsLayout(chBit, volt, interval, measCycle, numRpt);
    var k :| 0 <= k < |chs| && chs[k] == c;
    assert InitCommands(chBit, volt, interval, measCycle, numRpt)[k + 1] == SetVoltRangeCommand(c, volt);
  }

  /** The `initialize` command at position `i`. */
  lemma InitCommandAt(chBit: int, volt: string, interval: int, measCycle: int, numRpt: int, i: nat)
    requires i < |ExtractBits(chBit, NUM_CH)| + 4
    ensures var cmds := InitCommands(chBit, volt, interval, measCycle, numRpt);
            var chs := ExtractBits(chBit, NUM_CH);
            |cmds| == |chs| + 4 &&
            cmds[i] == if i == 0 then SetChCommand(chBit)
                       else if i <= |chs| then SetVoltRangeCommand(chs[i - 1], volt)
                       else if i == |chs| + 1 then SetChIntervalCommand(interval)
                       else if i == |chs| + 2 then SetMeasCycleCommand(measCycle)
                       else SetRepTimesCommand(numRpt)
  {
    InitCommandsLayout(chBit, volt, interval, measCycle, numRpt);
  }

  /** `initialize` sets the voltage range of a channel exactly when the channel's bit is set
      and the channel is one of the converter's eight. */
  lemma InitConfiguresEnabledChannels(chBit: int, volt: string, interval: int, measCycle: int, numRpt: int)
    ensures forall c: nat ::
              SetVoltRangeCommand(c, volt) in InitCommands(chBit, volt, interval, measCycle, numRpt) <==>
              c < NUM_CH && BitSet(chBit, c)
  {
    forall c: nat
      ensures SetVoltRangeCommand(c, volt) in InitCommands(chBit, volt, interval, measCycle, numRpt) <==>
              c < NUM_CH && BitSet(chBit, c)
    {
      if SetVoltRangeCommand(c, volt) in InitCommands(chBit, volt, interval, measCycle, numRpt) {
        InitRangeCommandIsForEnabledChannel(chBit, c, volt, interval, measCycle, numRpt);
      }
      if c < NUM_CH && BitSet(chBit, c) {
        InitRangeCommandForEnabledChannel(chBit, c, volt, interval, measCycle, numRpt);
      }
    }
  }

  // ---------------------------------------------------------------------------------------
  // Dialogues: what a run of commands does to a link

  /** The events a run of commands adds to the trace, how many replies it consumed, and
      whether it succeeded. */
  datatype Dialogue = Dialogue(events: seq<Event>, consumed: nat, outcome: Outcome<DeviceError>)

  /** `d` followed by `rest`, unless `d` already failed. */
  function Then(d: Dialogue, rest: Dialogue): Dialogue {
    if d.outcome.Fail? then d
    else Dialogue(d.events + rest.events, d.consumed + rest.consumed, rest.outcome)
  }

  /** Compare a reply with the one expected: a failed receive stays a transport failure, any
      other text than `expected` is rejected with the text as received. */
  function Check(answer: Result<string, TransportError>, expected: string): (o: Outcome<DeviceError>)
    ensures o == Pass <==> answer == Success(expected)
  {
    match answer
    case Failure(e) => Fail(Transport(e))
    case Success(reply) => if reply == expected then Pass else Fail(Rejected(reply))
  }

  /** `_validate_sender`: one receive, accepted only when it is the acknowledgement. */
  function Validate(link: Link): (d: Dialogue)
    ensures d.consumed <= |link.pending|
  {
    var heard := Listen(link);
    Dialogue(heard.events, heard.consumed, Check(heard.answer, AckReply(link.terminator)))
  }

  /** A `set_*`, `start` or `stop` command: send it, then validate the reply. */
  function Step(cmd: string, link: Link): (d: Dialogue)
    ensures d.consumed <= |link.pending|
  {
    var x := Ask(cmd, link);
    Dialogue(x.events, x.consumed, Check(x.answer, AckReply(link.terminator)))
  }

  /** A command is a send followed by `_validate_sender`; on a closed link the send fails. */
  lemma StepIsSendThenValidate(cmd: string, link: Link)
    ensures !link.connected ==> Step(cmd, link) == Dialogue([], 0, Fail(Transport(NotConnected)))
    ensures link.connected ==>
              var v := Validate(link);
              Step(cmd, link) == Dialogue([Sent(cmd + link.terminator)] + v.events, v.consumed, v.outcome)
  {
  }

  /** Run `cmds` in order, stopping at the first failure. */
  function Converse(cmds: seq<string>, link: Link): (d: Dialogue)
    ensures d.consumed <= |link.pending|
    decreases |cmds|
  {
    if cmds == [] then Dialogue([], 0, Pass)
    else
      var first := Step(cmds[0], link);
      if first.outcome.Fail? then first
      else
        var rest := Converse(cmds[1..], link.Consume(first.consumed));
        Dialogue(first.events + rest.events, first.consumed + rest.consumed, rest.outcome)
  }

  /** A run of one command is that command's step. */
  lemma ConverseOne(cmd: string, link: Link)
    ensures Converse([cmd], link) == Step(cmd, link)
  {
    var first := Step(cmd, link);
    if first.outcome.Pass? {
      assert [cmd][1..] == [];
      assert first.events + [] == first.events;
    }
  }

  /** The number of acknowledgements at the head of `replies`. */
  function Acked(replies: seq<string>, ack: string): (n: nat)
    ensures n <= |replies|
    ensures forall k :: 0 <= k < n ==> replies[k] == ack
    ensures n < |replies| ==> replies[n] != ack
    decreases |replies|
  {
    if replies == [] || replies[0] != ack then 0 else 1 + Acked(replies[1..], ack)
  }

  /** The trace of commands that are all sent and all acknowledged. */
  function Transcript(cmds: seq<string>, term: string): (events: seq<Event>)
    ensures |events| == 2 * |cmds|
    decreases |cmds|
  {
    if cmds == [] then [] else [Sent(cmds[0] + term), Received(AckReply(term))] + Transcript(cmds[1..], term)
  }

  /** In that trace, each command is sent with the terminator and followed by its
      acknowledgement, in command order. */
  lemma TranscriptEvents(cmds: seq<string>, term: string)
    ensures var events := Transcript(cmds, term);
            forall k :: 0 <= k < |cmds| ==>
              events[2 * k] == Sent(cmds[k] + term) && events[2 * k + 1] == Received(AckReply(term))
  {
    forall k | 0 <= k < |cmds|
      ensures Transcript(cmds, term)[2 * k] == Sent(cmds[k] + term)
      ensures Transcript(cmds, term)[2 * k + 1] == Received(AckReply(term))
    {
      TranscriptAt(cmds, term, k);
    }
  }

  lemma {:induction false} TranscriptAt(cmds: seq<string>, term: string, k: nat)
    requires k < |cmds|
    ensures Transcript(cmds, term)[2 * k] == Sent(cmds[k] + term)
    ensures Transcript(cmds, term)[2 * k + 1] == Received(AckReply(term))
    decreases k
  {
    if k > 0 {
      TranscriptAt(cmds[1..], term, k - 1);
      assert cmds[1..][k - 1] == cmds[k];
    }
  }

  /** One command on an open link: it is sent, and the reply that comes decides. */
  lemma StepOnOpenLink(cmd: string, link: Link)
    requires link.connected
    ensures var t := link.terminator;
            Step(cmd, link) ==
              if link.pending == [] then Dialogue([Sent(cmd + t)], 0, Fail(Transport(Timeout)))
              else if link.pending[0] == AckReply(t) then Dialogue([Sent(cmd + t), Received(AckReply(t))], 1, Pass)
              else Dialogue([Sent(cmd + t), Received(link.pending[0])], 1, Fail(Rejected(link.pending[0])))
  {
  }

  /** The link after one acknowledged command. */
  lemma AfterAck(link: Link)
    requires link.connected && link.pending != [] && link.pending[0] == AckReply(link.terminator)
    ensures var next := link.Consume(1);
            next.connected && next.terminator == link.terminator && next.pending == link.pending[1..] &&
            Acked(next.pending, AckReply(next.terminator)) == Acked(link.pending, AckReply(link.terminator)) - 1
  {
  }

  /** With an acknowledgement queued for each command, all are sent in order and succeed. */
  lemma {:induction false} ConverseAcked(cmds: seq<string>, link: Link)
    requires link.connected && |cmds| <= Acked(link.pending, AckReply(link.terminator))
    ensures Converse(cmds, link) == Dialogue(Transcript(cmds, link.terminator), |cmds|, Pass)
    decreases |cmds|
  {
    if cmds != [] {
      StepOnOpenLink(cmds[0], link);
      AfterAck(link);
      ConverseAcked(cmds[1..], link.Consume(1));
    }
  }

  /** The first reply that is not an acknowledgement ends the run: the commands before it
      succeeded, the one it answers is rejected with its text, and nothing later is sent. */
  lemma ConverseRejected(cmds: seq<string>, link: Link)
    requires link.connected
    requires Acked(link.pending, AckReply(link.terminator)) < |cmds|
    requires Acked(link.pending, AckReply(link.terminator)) < |link.pending|
    ensures var n := Acked(link.pending, AckReply(link.terminator));
            var t := link.terminator;
            Converse(cmds, link) ==
              Dialogue(Transcript(cmds[..n], t) + [Sent(cmds[n] + t), Received(link.pending[n])],
                       n + 1, Fail(Rejected(link.pending[n])))
  {
    var n := Acked(link.pending, AckReply(link.terminator));
    var t := link.terminator;
    assert cmds == cmds[..n] + cmds[n..];
    ConverseAppend(cmds[..n], cmds[n..], link);
    ConverseAcked(cmds[..n], link);
    var rest := link.Consume(n);
    assert rest.pending[0] == link.pending[n];
    StepOnOpenLink(cmds[n], rest);
    assert cmds[n..][0] == cmds[n];
  }

  /** When the replies run out before the commands do, the next command is sent and times
      out waiting; nothing later is sent. */
  lemma ConverseTimedOut(cmds: seq<string>, link: Link)
    requires link.connected
    requires Acked(link.pending, AckReply(link.terminator)) < |cmds|
    requires Acked(link.pending, AckReply(link.terminator)) == |link.pending|
    ensures var n := |link.pending|;
            var t := link.terminator;
            Converse(cmds, link) ==
              Dialogue(Transcript(cmds[..n], t) + [Sent(cmds[n] + t)], n, Fail(Transport(Timeout)))
  {
    var n := |link.pending|;
    assert cmds == cmds[..n] + cmds[n..];
    ConverseAppend(cmds[..n], cmds[n..], link);
    ConverseAcked(cmds[..n], link);
    var rest := link.Consume(n);
    assert rest.pending == [];
    StepOnOpenLink(cmds[n], rest);
    assert cmds[n..][0] == cmds[n];
  }

  /** What a run of commands does, in full. On a closed link nothing is sent. Otherwise the
      commands go out in order, each followed by one receive, and with `n` acknowledgements
      queued: all commands succeed when `n` covers them; else the command after the `n`-th
      fails, rejected with the reply that came, or timed out when no reply was left. Nothing
      later is sent and what was sent stays in the trace. */
  lemma ConverseOutcome(cmds: seq<string>, link: Link)
    ensures var d := Converse(cmds, link);
            var n := Acked(link.pending, AckReply(link.terminator));
            var t := link.terminator;
            (cmds == [] ==> d == Dialogue([], 0, Pass)) &&
            (cmds != [] && !link.connected ==> d == Dialogue([], 0, Fail(Transport(NotConnected)))) &&
            (link.connected && |cmds| <= n ==> d == Dialogue(Transcript(cmds, t), |cmds|, Pass)) &&
            (link.connected && n < |cmds| && n < |link.pending| ==>
               d == Dialogue(Transcript(cmds[..n], t) + [Sent(cmds[n] + t), Received(link.pending[n])],
                             n + 1, Fail(Rejected(link.pending[n])))) &&
            (link.connected && n < |cmds| && n == |link.pending| ==>
               d == Dialogue(Transcript(cmds[..n], t) + [Sent(cmds[n] + t)], n, Fail(Transport(Timeout))))
  {
    var n := Acked(link.pending, AckReply(link.terminator));
    if link.connected {
      if |cmds| <= n {
        ConverseAcked(cmds, link);
      } else if n < |link.pending| {
        ConverseRejected(cmds, link);
      } else {
        ConverseTimedOut(cmds, link);
      }
    }
  }

  /** Running `xs` and then `ys` is running `xs + ys`: the second part starts on what the
      first left, and a failure in the first part means the second is never sent. */
  lemma ConverseAppend(xs: seq<string>, ys: seq<string>, link: Link)
    ensures var a := Converse(xs, link);
            Converse(xs + ys, link) == Then(a, Converse(ys, link.Consume(a.consumed)))
  {
    var a := Converse(xs, link);
    ConverseIsRun(xs, link);
    ConverseIsRun(xs + ys, link);
    ConverseIsRun(ys, link.Consume(a.consumed));
    RunAppend(Step, xs, ys, link);
  }

  /** A per-command exchange that never uses more replies than are queued. */
  ghost predicate Bounded(step: (string, Link) -> Dialogue) {
    forall cmd, link :: step(cmd, link).consumed <= |link.pending|
  }

  /** Fail-fast sequencing of any bounded per-command exchange; `Converse` is this run with
      `Step`. */
  ghost function Run(step: (string, Link) -> Dialogue, cmds: seq<string>, link: Link): (d: Dialogue)
    requires Bounded(step)
    ensures d.consumed <= |link.pending|
    decreases |cmds|
  {
    if cmds == [] then Dialogue([], 0, Pass)
    else
      var first := step(cmds[0], link);
      Then(first, Run(step, cmds[1..], link.Consume(first.consumed)))
  }

  lemma ThenAssoc(d: Dialogue, e: Dialogue, f: Dialogue)
    ensures Then(Then(d, e), f) == Then(d, Then(e, f))
  {
    if d.outcome.Pass? && e.outcome.Pass? {
      assert d.events + (e.events + f.events) == (d.events + e.events) + f.events;
    }
  }

  lemma ConsumeTwice(link: Link, m: nat, n: nat)
    requires m + n <= |link.pending|
    ensures link.Consume(m).Consume(n) == link.Consume(m + n)
  {
    assert link.pending[m..][n..] == link.pending[m + n..];
  }

  lemma {:induction false} ConverseIsRun(cmds: seq<string>, link: Link)
    ensures Bounded(Step) && Converse(cmds, link) == Run(Step, cmds, link)
    decreases |cmds|
  {
    assert Bounded(Step) by {
      forall cmd, l ensures Step(cmd, l).consumed <= |l.pending| {
      }
    }
    if cmds != [] {
      var first := Step(cmds[0], link);
      if first.outcome.Pass? {
        ConverseIsRun(cmds[1..], link.Consume(first.consumed));
      }
    }
  }

  lemma {:induction false} RunAppend(step: (string, Link) -> Dialogue, xs: seq<string>, ys: seq<string>, link: Link)
    requires Bounded(step)
    ensures var a := Run(step, xs, link);
            Run(step, xs + ys, link) == Then(a, Run(step, ys, link.Consume(a.consumed)))
    decreases |xs|
  {
    if xs == [] {
      assert xs + ys == ys;
      assert link.Consume(0) == link;
    } else {
      assert (xs + ys)[0] == xs[0];
      assert (xs + ys)[1..] == xs[1..] + ys;
      var first := step(xs[0], link);
      var next := link.Consume(first.consumed);
      var a := Run(step, xs[1..], next);
      var b := Run(step, ys, next.Consume(a.consumed));
      RunAppend(step, xs[1..], ys, next);
      ThenAssoc(first, a, b);
      ConsumeTwice(link, first.consumed, a.consumed);
    }
  }

  lemma PrefixGrows<T>(s: seq<T>, k: nat)
    requires k < |s|
    ensures s[..k] + [s[k]] == s[..k + 1]
    ensures k + 1 == |s| ==> s[..k + 1] == s
  {
  }

  lemma PrefixAndRest<T>(s: seq<T>, k: nat)
    requires k <= |s|
    ensures s[..k] + s[k..] == s
  {
  }

  /** More commands after a successful run: the trace and the link carry on from where the
      run left them. */
  lemma ConverseExtend(done: seq<string>, more: seq<string>, next: seq<string>, link: Link, trace0: seq<Event>,
                       trace1: seq<Event>, link1: Link, trace2: seq<Event>, link2: Link)
    requires next == done + more
    requires var a := Converse(done, link);
             a.outcome == Pass && trace1 == trace0 + a.events && link1 == link.Consume(a.consumed)
    requires var b := Converse(more, link1);
             trace2 == trace1 + b.events && link2 == link1.Consume(b.consumed)
    ensures var c := Converse(next, link);
            trace2 == trace0 + c.events && link2 == link.Consume(c.consumed) && c.outcome == Converse(more, link1).outcome
  {
    ConverseAppend(done, more, link);
    var a := Converse(done, link);
    var b := Converse(more, link1);
    Chain(a.events, a.consumed, b.events, b.consumed, link, trace0, trace1, link1, trace2, link2);
  }

  /** Two exchanges one after the other, as trace and link see them. */
  lemma Chain(aEvents: seq<Event>, aConsumed: nat, bEvents: seq<Event>, bConsumed: nat, link: Link, trace0: seq<Event>,
              trace1: seq<Event>, link1: Link, trace2: seq<Event>, link2: Link)
    requires aConsumed <= |link.pending| && trace1 == trace0 + aEvents && link1 == link.Consume(aConsumed)
    requires bConsumed <= |link1.pending| && trace2 == trace1 + bEvents && link2 == link1.Consume(bConsumed)
    ensures trace2 == trace0 + (aEvents + bEvents) && link2 == link.Consume(aConsumed + bConsumed)
  {
    assert link.pending[aConsumed..][bConsumed..] == link.pending[aConsumed + bConsumed..];
  }

  /** After a failure the rest of the commands are never sent. */
  lemma ConverseAbandon(done: seq<string>, rest: seq<string>, whole: seq<string>, link: Link)
    requires whole == done + rest
    requires Converse(done, link).outcome.Fail?
    ensures Converse(whole, link) == Converse(done, link)
  {
    ConverseAppend(done, rest, link);
  }

  // ---------------------------------------------------------------------------------------
  // Reading a buffer

  /** What `read_buffer` hands back: nothing (`None`), one value unwrapped, or a list. */
  datatype Reading<V> = NoData | Single(value: V) | Multiple(values: seq<V>)

  /** `list(map(float, tokens))`: the first token that is not a number raises. */
  function ParseAll<V>(tokens: seq<string>, parse: string -> Option<V>): Result<seq<V>, DeviceError>
    decreases |tokens|
  {
    if tokens == [] then Success([])
    else match parse(tokens[0])
      case None => Failure(BadNumber(tokens[0]))
      case Some(v) =>
        match ParseAll(tokens[1..], parse)
        case Failure(e) => Failure(e)
        case Success(vs) => Success([v] + vs)
  }

  /** Parsing succeeds exactly when every token parses, and yields the values in token order;
      otherwise it names the first token that does not parse. */
  lemma {:induction false} ParseAllSpec<V>(tokens: seq<string>, parse: string -> Option<V>)
    ensures ParseAll(tokens, parse).Success? <==> forall k :: 0 <= k < |tokens| ==> parse(tokens[k]).Some?
    ensures ParseAll(tokens, parse).Success? ==>
              var vs := ParseAll(tokens, parse).value;
              |vs| == |tokens| && forall k :: 0 <= k < |tokens| ==> parse(tokens[k]) == Some(vs[k])
    ensures ParseAll(tokens, parse).Failure? ==>
              exists j :: 0 <= j < |tokens| && parse(tokens[j]).None? &&
                          ParseAll(tokens, parse).error == BadNumber(tokens[j]) &&
                          forall k :: 0 <= k < j ==> parse(tokens[k]).Some?
    decreases |tokens|
  {
    if tokens != [] {
      ParseAllSpec(tokens[1..], parse);
      if parse(tokens[0]).Some? && ParseAll(tokens[1..], parse).Failure? {
        var j :| 0 <= j < |tokens[1..]| && parse(tokens[1..][j]).None? &&
                 ParseAll(tokens[1..], parse).error == BadNumber(tokens[1..][j]) &&
                 forall k :: 0 <= k < j ==> parse(tokens[1..][k]).Some?;
        assert parse(tokens[j + 1]).None?;
        assert forall k :: 1 <= k < j + 1 ==> tokens[k] == tokens[1..][k - 1];
      }
      if parse(tokens[0]).None? {
        assert ParseAll(tokens, parse).error == BadNumber(tokens[0]);
      }
    }
  }

  /** A list of one value comes back unwrapped. */
  function Unwrap<V>(vs: seq<V>): Reading<V> {
    if |vs| == 1 then Single(vs[0]) else Multiple(vs)
  }

  /** How `read_buffer` reads a reply: the empty-buffer reply means no data; otherwise the
      prompt characters are stripped from both ends, the rest is split on the terminator, the
      last piece is dropped, and every other piece is parsed as a number. */
  function InterpretBuffer<V>(reply: string, term: string, parse: string -> Option<V>): Result<Reading<V>, DeviceError> {
    if reply == EmptyBufferReply(term) then Success(NoData)
    else if term == "" then Failure(EmptySeparator)
    else
      var pieces := Split(Strip(reply, CharsOf(ReadyPrompt)), term);
      match ParseAll(pieces[..|pieces| - 1], parse)
      case Failure(e) => Failure(e)
      case Success(vs) => Success(Unwrap(vs))
  }

  /** No data is reported exactly for the empty-buffer reply. */
  lemma NoDataOnlyForEmptyBuffer<V>(reply: string, term: string, parse: string -> Option<V>)
    ensures InterpretBuffer(reply, term, parse) == Success(NoData) <==> reply == EmptyBufferReply(term)
  {
  }

  lemma LinesEnd(ts: seq<string>, sep: string)
    requires ts != [] && sep != []
    ensures |Lines(ts, sep)| >= |sep| && Lines(ts, sep)[|Lines(ts, sep)| - 1] == sep[|sep| - 1]
    decreases |ts|
  {
    if |ts| > 1 {
      LinesEnd(ts[1..], sep);
    }
  }

  lemma LinesStart(ts: seq<string>, sep: string)
    requires ts != [] && sep != []
    ensures Lines(ts, sep) != []
    ensures Lines(ts, sep)[0] == if ts[0] != [] then ts[0][0] else sep[0]
  {
  }

  lemma SplitWithoutSeparator(s: string, sep: string)
    requires |sep| > 0
    requires forall j: nat :: !OccursAt(s, sep, j)
    ensures Split(s, sep) == [s]
  {
    IndexOfLeftmost(s, sep);
  }

  lemma PromptChars()
    ensures CharsOf(ReadyPrompt) == {'>'}
  {
    assert ReadyPrompt[0] == '>';
  }

  /** The ends of such a reply body are not prompt characters. */
  lemma BufferBodyEnds(ts: seq<string>, tail: string, term: string)
    requires term != [] && '>' !in term
    requires forall k :: 0 <= k < |ts| ==> ts[k] == [] || ts[k][0] != '>'
    requires tail == [] || (tail[|tail| - 1] != '>' && (ts == [] ==> tail[0] != '>'))
    ensures var body := Lines(ts, term) + tail;
            body == [] || (body[0] != '>' && body[|body| - 1] != '>')
  {
    var lines := Lines(ts, term);
    var body := lines + tail;
    if ts != [] {
      LinesEnd(ts, term);
      LinesStart(ts, term);
      assert term[|term| - 1] in term;
      assert term[0] in term;
      assert body[0] == lines[0];
    }
    if tail != [] {
      assert body[|body| - 1] == tail[|tail| - 1];
    } else {
      assert body == lines;
    }
  }

  /** So stripping such a reply only removes the prompt. */
  lemma BufferBodyStrips(ts: seq<string>, tail: string, term: string)
    requires term != [] && '>' !in term
    requires forall k :: 0 <= k < |ts| ==> ts[k] == [] || ts[k][0] != '>'
    requires tail == [] || (tail[|tail| - 1] != '>' && (ts == [] ==> tail[0] != '>'))
    ensures Strip(Lines(ts, term) + tail + ReadyPrompt, CharsOf(ReadyPrompt)) == Lines(ts, term) + tail
  {
    var body := Lines(ts, term) + tail;
    PromptChars();
    BufferBodyEnds(ts, tail, term);
    StripPadding("", body, ReadyPrompt, CharsOf(ReadyPrompt));
    assert "" + body + ReadyPrompt == body + ReadyPrompt;
  }

  /** A reply made of tokens each followed by the terminator, possibly an unterminated tail,
      and the prompt reads back as exactly the terminated tokens, parsed in order; the tail is
      lost. With no tokens and no tail (a bare prompt) the result is an empty list, not "no
      data". */
  lemma BufferRoundTrip<V>(ts: seq<string>, tail: string, term: string, parse: string -> Option<V>)
    requires term != [] && '>' !in term
    requires forall k :: 0 <= k < |ts| ==> Separable(ts[k], term)
    requires forall k :: 0 <= k < |ts| ==> ts[k] == [] || ts[k][0] != '>'
    requires forall j: nat :: !OccursAt(tail, term, j)
    requires tail == [] || (tail[|tail| - 1] != '>' && (ts == [] ==> tail[0] != '>'))
    requires Lines(ts, term) + tail + ReadyPrompt != EmptyBufferReply(term)
    ensures InterpretBuffer(Lines(ts, term) + tail + ReadyPrompt, term, parse) ==
            match ParseAll(ts, parse)
            case Failure(e) => Failure(e)
            case Success(vs) => Success(Unwrap(vs))
  {
    BufferPieces(ts, tail, term);
  }

  /** The pieces `read_buffer` parses from such a reply are exactly the terminated tokens. */
  lemma BufferPieces(ts: seq<string>, tail: string, term: string)
    requires term != [] && '>' !in term
    requires forall k :: 0 <= k < |ts| ==> Separable(ts[k], term)
    requires forall k :: 0 <= k < |ts| ==> ts[k] == [] || ts[k][0] != '>'
    requires forall j: nat :: !OccursAt(tail, term, j)
    requires tail == [] || (tail[|tail| - 1] != '>' && (ts == [] ==> tail[0] != '>'))
    ensures var pieces := Split(Strip(Lines(ts, term) + tail + ReadyPrompt, CharsOf(ReadyPrompt)), term);
            |pieces| == |ts| + 1 && pieces[..|pieces| - 1] == ts
  {
    BufferBodyStrips(ts, tail, term);
    SplitLines(ts, term, tail);
    SplitWithoutSeparator(tail, term);
    var pieces := ts + [tail];
    assert pieces[..|pieces| - 1] == ts;
  }

  /** `read_buffer`'s result for what `query` returned. */
  function BufferAnswer<V>(answer: Result<string, TransportError>, term: string, parse: string -> Option<V>): Result<Reading<V>, DeviceError> {
    match answer
    case Failure(e) => Failure(Transport(e))
    case Success(reply) => InterpretBuffer(reply, term, parse)
  }

  /** `get_status`: the reply without the terminator and prompt characters at its ends. */
  function InterpretStatus(reply: string, term: string): string {
    Strip(reply, CharsOf(term + ReadyPrompt))
  }

  /** A status text padded with terminator and prompt characters reads back as itself. */
  lemma StatusRoundTrip(pre: string, status: string, post: string, term: string)
    requires forall k :: 0 <= k < |pre| ==> pre[k] in term + ReadyPrompt
    requires forall k :: 0 <= k < |post| ==> post[k] in term + ReadyPrompt
    requires status == [] || (status[0] !in term + ReadyPrompt && status[|status| - 1] !in term + ReadyPrompt)
    ensures InterpretStatus(pre + status + post, term) == status
  {
    var cs := CharsOf(term + ReadyPrompt);
    assert forall c :: c in cs <==> c in term + ReadyPrompt;
    StripPadding(pre, status, post, cs);
  }

  /** The status reply the device gives for `status`. */
  lemma StatusReply(status: string)
    requires status == [] || (status[0] !in "\r\n>" && status[|status| - 1] !in "\r\n>")
    ensures InterpretStatus(status + DeviceTerminator + ReadyPrompt, DeviceTerminator) == status
  {
    StatusRoundTrip("", status, DeviceTerminator + ReadyPrompt, DeviceTerminator);
    assert "" + status + (DeviceTerminator + ReadyPrompt) == status + DeviceTerminator + ReadyPrompt;
  }

  /** `get_status`'s result for what `query` returned. */
  function StatusAnswer(answer: Result<string, TransportError>, term: string): Result<string, DeviceError> {
    match answer
    case Failure(e) => Failure(Transport(e))
    case Success(reply) => Success(InterpretStatus(reply, term))
  }
}
