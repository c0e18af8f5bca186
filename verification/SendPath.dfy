/** TcpConnection's sending side: what the socket does not take at once waits in the output buffer. Over every
    interleaving nothing is lost, repeated or reordered. */
module SendPath {
  import opened Common
  import opened Lz77
  import opened NetBuffer

  /** The socket's answer to a write: it takes up to so many bytes, or gives an error. */
  datatype Answer = Takes(most: nat) | WouldBlock | Fault | OtherError

  /** How many of len bytes the socket takes. */
  function Taken(answer: Answer, len: nat): (n: nat)
    ensures n <= len
  {
    if !answer.Takes? then 0 else if answer.most < len then answer.most else len
  }

  class Connection {
    const output: Buffer
    /** Whether the channel waits for the socket to take more. */
    var writing: bool
    var closed: bool
    /** The bytes the socket has taken, and all bytes given to be sent. */
    ghost var accepted: seq<byte>
    ghost var given: seq<byte>

    ghost predicate Valid()
      reads this, output
    {
      output.Valid()
    }

    /** Everything given is with the socket or waiting, in order. */
    ghost predicate Conserved()
      reads this, output
      requires Valid()
    {
      accepted + output.Contents() == given
    }

    /** An open connection waits for the socket exactly while bytes wait. */
    ghost predicate InStep()
      reads this, output
      requires Valid()
    {
      closed || (writing <==> output.Contents() != [])
    }

    constructor ()
      ensures Valid() && Conserved() && InStep() && given == [] && fresh(output) && !closed
    {
      output := new Buffer(INITIAL_SIZE);
      writing, closed, accepted, given := false, false, [], [];
    }

    /** sockets::write: the socket takes a prefix, or the result is negative. */
    method Write(bytes: seq<byte>, answer: Answer) returns (n: int)
      modifies this`accepted
      ensures n == if answer.Takes? then Taken(answer, |bytes|) else -1
      ensures accepted == old(accepted) + bytes[..Taken(answer, |bytes|)]
    {
      n := -1;
      assert bytes[..0] == [];
      if answer.Takes? {
        n := Taken(answer, |bytes|);
        accepted := accepted + bytes[..n];
      }
    }

    static lemma Joined(taken: seq<byte>, waiting: seq<byte>, message: seq<byte>, n: nat)
      requires n <= |message| && (n > 0 ==> waiting == [])
      ensures taken + message[..n] + (waiting + message[n..]) == taken + waiting + message
    {
      assert message == message[..n] + message[n..];
    }

    /** sendInLoop. The socket is asked only if nothing waits. A fault (broken pipe, connection reset) drops the
        message whole; otherwise all of it is with the socket or waiting, and the channel waits for the socket.
        Whatever writing says, waiting bytes are never overtaken. */
    method SendInLoop(message: seq<byte>, answer: Answer) returns (fault: bool, ghost n: nat)
      requires Valid() && Conserved()
      modifies this`accepted, this`given, this`writing, output
      ensures Valid() && Conserved() && (old(InStep()) ==> InStep())
      ensures var asked := !old(writing) && old(output.Contents()) == [];
              && (fault <==> asked && answer.Fault?)
              && n == (if asked then Taken(answer, |message|) else 0)
      ensures given == if fault then old(given) else old(given) + message
      ensures accepted == old(accepted) + message[..n]
      ensures output.Contents() == old(output.Contents()) + (if fault then [] else message[n..])
      ensures writing <==> old(writing) || (!fault && n < |message|)
    {
      fault := false;
      var nwrote := 0;
      var remaining := |message|;
      ghost var taken, waiting := accepted, output.Contents();
      n := 0;
      assert message[..0] == [];
      if !writing && output.Readable() == 0 {
        nwrote := Write(message, answer);
        if nwrote >= 0 {
          remaining := |message| - nwrote;
          n := nwrote;
        } else {
          nwrote := 0;
          fault := answer.Fault?;
        }
      }
      if !fault {
        given := given + message;
        Joined(taken, waiting, message, nwrote);
        assert accepted == taken + message[..nwrote];
        if remaining > 0 {
          output.Append(message[nwrote..]);
          assert output.Contents() != [];
          writing := true;
        } else {
          assert waiting + message[nwrote..] == waiting;
        }
      }
    }

    /** handleWrite, when the socket can take more: bytes leave from the front, and the channel stops waiting
        when none are left. A socket that takes nothing closes the connection. */
    method HandleWrite(answer: Answer) returns (ghost n: nat)
      requires Valid() && Conserved()
      modifies this, output
      ensures Valid() && Conserved() && given == old(given) && (old(InStep()) ==> InStep())
      ensures n == if old(writing) then Taken(answer, |old(output.Contents())|) else 0
      ensures accepted == old(accepted) + old(output.Contents())[..n]
      ensures output.Contents() == old(output.Contents())[n..]
      ensures closed <==> old(closed) || (old(writing) && n == 0)
      ensures writing <==> old(writing) && (if n > 0 then n < |old(output.Contents())| else old(closed))
    {
      n := 0;
      assert output.Contents()[..0] == [];
      if writing {
        var bytes := output.buffer[output.reader..output.writer];
        var taken := Write(bytes, answer);
        if taken > 0 {
          n := taken;
          var _ := output.Retrieve(taken);
          assert bytes == bytes[..taken] + bytes[taken..];
          if output.Readable() == 0 { writing := false; }
        } else {
          assert bytes[..0] == [];
          HandleClose();
        }
      }
    }

    /** handleClose: only the first has an effect. */
    method HandleClose()
      modifies this`closed, this`writing
      ensures closed && writing == (old(closed) && old(writing))
    {
      if !closed { closed, writing := true, false; }
    }
  }

  /** One event, with the socket's answer: a message to send, or the socket becoming writable. */
  datatype Step = Send(message: seq<byte>, answer: Answer) | Writable(answer: Answer)

  /** What each event gives to send. */
  function Messages(steps: seq<Step>): (r: seq<seq<byte>>)
    ensures |r| == |steps|
  {
    seq(|steps|, i requires 0 <= i < |steps| => if steps[i].Send? then steps[i].message else [])
  }

  /** Any interleaving, up to a fault: the socket has a prefix of all messages in order, and the rest waits, with
      the channel waiting for the socket as long as there is any. Only a fault that the socket gives stops it. */
  method Run(steps: seq<Step>) returns (c: Connection, k: nat, fault: bool)
    ensures k <= |steps| && c.Valid() && c.InStep()
    ensures if fault then k < |steps| && steps[k].Send? && steps[k].answer.Fault? else k == |steps|
    ensures c.accepted + c.output.Contents() == Concat(Messages(steps)[..k])
  {
    c := new Connection();
    k, fault := 0, false;
    ConcatNone(Messages(steps));
    while k < |steps| && !fault
      invariant k <= |steps| && fresh(c) && fresh(c.output) && c.Valid() && c.Conserved() && c.InStep()
      invariant fault ==> k < |steps| && steps[k].Send? && steps[k].answer.Fault?
      invariant c.given == Concat(Messages(steps)[..k])
      decreases |steps| - k, !fault
    {
      ConcatNext(Messages(steps), k);
      match steps[k]
      case Send(m, answer) =>
        ghost var n;
        fault, n := c.SendInLoop(m, answer);
        if !fault { k := k + 1; }
      case Writable(answer) =>
        ghost var n := c.HandleWrite(answer);
        k := k + 1;
    }
  }
}
