/** The communicator interface of weathermonitor/core.py, realised as a scripted device link:
    every send and receive is recorded in an event trace, and the device's replies come from
    a queue fixed in advance. The guards and the framing of weathermonitor/communicator.py
    (`open` only when not connected, `msg + terminator` on the wire) are kept. */
module Core {
  import opened Wrappers

  /** What happens on the link, in order. `Sent` holds the framed text that goes on the wire. */
  datatype Event = Connected | Disconnected | Sent(text: string) | Received(text: string)

  /** Failures below the protocol: using a link that is not open (the socket attribute does
      not exist then), and a read that times out because the device sent nothing. */
  datatype TransportError = NotConnected | Timeout

  /** The observable state of a link: whether it is open, the replies the device still has
      to give, and the terminator appended to every message. */
  datatype Link = Link(connected: bool, pending: seq<string>, terminator: string) {
    function Consume(n: nat): Link
      requires n <= |pending|
    {
      this.(pending := pending[n..])
    }
  }

  /** One exchange on a link: the events it adds, how many replies it used, what it yields. */
  datatype Exchange = Exchange(events: seq<Event>, consumed: nat, answer: Result<string, TransportError>)

  /** `receive()`: the next reply the device gives, or a timeout when it has nothing to say. */
  function Listen(link: Link): (x: Exchange)
    ensures x.consumed <= |link.pending|
  {
    if !link.connected then Exchange([], 0, Failure(NotConnected))
    else if link.pending == [] then Exchange([], 0, Failure(Timeout))
    else Exchange([Received(link.pending[0])], 1, Success(link.pending[0]))
  }

  /** `query(msg)`: send `msg`, then receive one reply and hand it back unchanged. */
  function Ask(msg: string, link: Link): (x: Exchange)
    ensures x.consumed <= |link.pending|
  {
    if !link.connected then Exchange([], 0, Failure(NotConnected))
    else
      var heard := Listen(link);
      Exchange([Sent(msg + link.terminator)] + heard.events, heard.consumed, heard.answer)
  }

  /** A query never uses more replies than are queued, and uses at most one. */
  lemma AskConsumesAtMostOne(msg: string, link: Link)
    ensures Ask(msg, link).consumed <= 1
    ensures Ask(msg, link).answer.Success? <==> link.connected && link.pending != []
    ensures Ask(msg, link).answer.Success? ==>
              Ask(msg, link).answer.value == link.pending[0] && Ask(msg, link).consumed == 1
    ensures link.connected ==> Ask(msg, link).events[0] == Sent(msg + link.terminator)
  {
  }

  /** The class-level attributes of the communicator class. `terminator` lives on the class,
      not on an instance, so every communicator refers to the one shared object. */
  class CommunicatorClass {
    var terminator: string

    constructor ()
      ensures terminator == ""
    {
      terminator := "";
    }
  }

  class Communicator {
    const cls: CommunicatorClass
    var connection: bool
    var trace: seq<Event>
    var pending: seq<string>

    function Terminator(): string
      reads cls
    {
      cls.terminator
    }

    function State(): Link
      reads this, cls
    {
      Link(connection, pending, cls.terminator)
    }

    /** `BaseCommunicator.__init__(*args)`: opens only when arguments are given. `script` is
        what the device will answer, in order. */
    constructor (cls: CommunicatorClass, args: seq<string>, script: seq<string>)
      ensures this.cls == cls && pending == script
      ensures connection == (|args| != 0)
      ensures trace == if |args| != 0 then [Connected] else []
    {
      this.cls := cls;
      connection := false;
      trace := [];
      pending := script;
      new;
      if |args| != 0 {
        Open();
      }
    }

    /** `open()`: connects only when not yet connected. */
    method Open()
      modifies this`connection, this`trace
      ensures connection
      ensures trace == old(trace) + if old(connection) then [] else [Connected]
    {
      if !connection {
        connection := true;
        trace := trace + [Connected];
      }
    }

    /** `close()`: releases the connection; without one there is no socket to close. */
    method Close() returns (r: Outcome<TransportError>)
      modifies this`connection, this`trace
      ensures !connection
      ensures r == if old(connection) then Pass else Fail(NotConnected)
      ensures trace == old(trace) + if old(connection) then [Disconnected] else []
    {
      if !connection {
        return Fail(NotConnected);
      }
      connection := false;
      trace := trace + [Disconnected];
      r := Pass;
    }

    /** `__del__`: closes only a connection that is open. */
    method Finalize()
      modifies this`connection, this`trace
      ensures !connection
      ensures trace == old(trace) + if old(connection) then [Disconnected] else []
    {
      if connection {
        var _ := Close();
      }
    }

    /** `send(msg)`: puts `msg + terminator` on the wire. */
    method Send(msg: string) returns (r: Outcome<TransportError>)
      modifies this`trace
      ensures r == if old(connection) then Pass else Fail(NotConnected)
      ensures trace == old(trace) + if old(connection) then [Sent(msg + Terminator())] else []
    {
      if !connection {
        return Fail(NotConnected);
      }
      trace := trace + [Sent(msg + cls.terminator)];
      r := Pass;
    }

    /** `receive()`: the device's next reply, or a timeout when it has nothing to say. */
    method Receive() returns (r: Result<string, TransportError>)
      modifies this`trace, this`pending
      ensures var x := Listen(old(State()));
              trace == old(trace) + x.events && State() == old(State()).Consume(x.consumed) && r == x.answer
    {
      if !connection {
        return Failure(NotConnected);
      }
      if pending == [] {
        return Failure(Timeout);
      }
      r := Success(pending[0]);
      trace := trace + [Received(pending[0])];
      pending := pending[1..];
    }

    /** `query(msg)`: one send, then one receive, the reply returned as it came. */
    method Query(msg: string) returns (r: Result<string, TransportError>)
      modifies this`trace, this`pending
      ensures var x := Ask(msg, old(State()));
              trace == old(trace) + x.events && State() == old(State()).Consume(x.consumed) && r == x.answer
    {
      var s := Send(msg);
      if s.Fail? {
        return Failure(s.error);
      }
      r := Receive();
    }

    /** `set_terminator(t)`, a class method: every communicator sees the new terminator. */
    method SetTerminator(t: string)
      modifies cls
      ensures cls.terminator == t
      ensures forall c: Communicator | c.cls == cls :: c.Terminator() == t
    {
      cls.terminator := t;
    }
  }
}
