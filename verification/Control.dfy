// The private control channel: newline-framed messages over a nonblocking
// stream socket that may take or give any number of bytes at a time.
//
// The class works on its output frames and its input buffer exactly as the
// program does. Its ghost fields record what crossed each boundary (messages
// accepted, bytes handed to the socket, bytes that arrived, messages
// delivered), and `Valid` ties all of them together for ANY peer. The theorem
// at the end says what that means when the peer is itself such a channel.

module Control {
  import opened Options

  newtype byte = x: int | 0 <= x < 256
  type bytes = seq<byte>

  const MAX_MESSAGE := 4096
  const MAX_BACKLOG := 8
  const MAX_BATCH := 16
  const NEWLINE: byte := 10

  // The envelope every message carries; the payload is its kind and fields.
  datatype Message<+P> = Message(generation: nat, number: nat, sentAt: int, payload: P)

  // The body format. `write` gives None for a message that fails validation;
  // `read` gives None for bytes that are no valid message.
  datatype Codec<!P> = Codec(write: Message<P> -> Option<bytes>, read: bytes -> Option<Message<P>>)

  // All the framing asks of the format: bodies are free of newlines, and
  // reading undoes writing.
  ghost predicate Lawful<P(!new)>(c: Codec<P>) {
    forall m :: c.write(m).Some? ==>
      NEWLINE !in c.write(m).value && c.read(c.write(m).value) == Some(m)
  }

  function Encode<P>(c: Codec<P>, m: Message<P>): Option<bytes> {
    match c.write(m)
    case None => None
    case Some(body) => if |body| + 1 > MAX_MESSAGE then None else Some(body + [NEWLINE])
  }

  function Decode<P>(c: Codec<P>, data: bytes): Option<Message<P>> {
    if |data| > MAX_MESSAGE || |data| == 0 || data[|data| - 1] != NEWLINE then None
    else c.read(data[..|data| - 1])
  }

  // One newline, and it is the last byte.
  predicate IsLine(data: bytes) {
    0 < |data| && data[|data| - 1] == NEWLINE && NEWLINE !in data[..|data| - 1]
  }

  // A message is encoded exactly if its body and the newline fit, and then it
  // is one line that reads as the message.
  lemma RoundTrip<P(!new)>(c: Codec<P>, m: Message<P>)
    requires Lawful(c)
    ensures Encode(c, m).Some? <==> c.write(m).Some? && |c.write(m).value| < 4096
    ensures Encode(c, m).Some? ==>
              && IsLine(Encode(c, m).value) && |Encode(c, m).value| <= 4096
              && Decode(c, Encode(c, m).value) == Some(m)
  {
    if Encode(c, m).Some? {
      var body := c.write(m).value;
      assert (body + [NEWLINE])[..|body|] == body;
    }
  }

  // ----- byte streams -----

  function Join(frames: seq<bytes>): bytes {
    if frames == [] then [] else frames[0] + Join(frames[1..])
  }

  lemma {:induction false} JoinAppend(frames: seq<bytes>, last: bytes)
    ensures Join(frames + [last]) == Join(frames) + last
  {
    if frames == [] {
      assert Join([last]) == last + Join([]);
    } else {
      assert (frames + [last])[1..] == frames[1..] + [last];
      JoinAppend(frames[1..], last);
      assert frames[0] + (Join(frames[1..]) + last) == frames[0] + Join(frames[1..]) + last;
    }
  }

  lemma Associates(a: bytes, b: bytes, c: bytes)
    ensures (a + b) + c == a + (b + c)
  {
  }

  lemma JoinCons(first: bytes, rest: seq<bytes>)
    ensures Join([first] + rest) == first + Join(rest)
  {
    assert ([first] + rest)[1..] == rest;
  }

  // Moving the first frame, or a piece of it, from the backlog to the wire
  // leaves the whole of what is committed unchanged.
  lemma MoveFrame(wire: bytes, frames: seq<bytes>)
    requires 0 < |frames|
    ensures (wire + frames[0]) + Join(frames[1..]) == wire + Join(frames)
  {
    Associates(wire, frames[0], Join(frames[1..]));
  }

  lemma MovePiece(wire: bytes, frames: seq<bytes>, count: nat)
    requires 0 < |frames| && count <= |frames[0]|
    ensures (wire + frames[0][..count]) + Join([frames[0][count..]] + frames[1..]) == wire + Join(frames)
  {
    JoinCons(frames[0][count..], frames[1..]);
    var head, tail, more := frames[0][..count], frames[0][count..], Join(frames[1..]);
    assert frames[0] == head + tail;
    Associates(head, tail, more);
    Associates(wire, head, tail + more);
  }

  // What is committed before the newest frame.
  ghost function BeforeNewest(wire: bytes, frames: seq<bytes>): bytes {
    if frames == [] then wire else wire + Join(frames[..|frames| - 1])
  }

  lemma MoveFrameBeforeNewest(wire: bytes, frames: seq<bytes>)
    requires 0 < |frames|
    ensures 1 < |frames| ==> BeforeNewest(wire + frames[0], frames[1..]) == BeforeNewest(wire, frames)
  {
    if 1 < |frames| {
      var init := frames[..|frames| - 1];
      assert init[1..] == frames[1..][..|frames| - 2];
      MoveFrame(wire, init);
    }
  }

  lemma NewestIsLast(wire: bytes, frames: seq<bytes>, newest: bytes)
    ensures BeforeNewest(wire, frames + [newest]) == wire + Join(frames)
    ensures wire + Join(frames + [newest]) == wire + Join(frames) + newest
  {
    assert (frames + [newest])[..|frames|] == frames;
    JoinAppend(frames, newest);
    Associates(wire, Join(frames), newest);
  }

  // The stream a sender means to send.
  ghost function Stream<P>(c: Codec<P>, messages: seq<Message<P>>): bytes
    requires Encodable(c, messages)
  {
    if messages == [] then [] else Encode(c, messages[0]).value + Stream(c, messages[1..])
  }

  ghost predicate Encodable<P>(c: Codec<P>, messages: seq<Message<P>>) {
    forall i :: 0 <= i < |messages| ==> Encode(c, messages[i]).Some?
  }

  lemma {:induction false} StreamAppend<P>(c: Codec<P>, messages: seq<Message<P>>, m: Message<P>)
    requires Encodable(c, messages) && Encode(c, m).Some?
    ensures Encodable(c, messages + [m])
    ensures Stream(c, messages + [m]) == Stream(c, messages) + Encode(c, m).value
  {
    if messages == [] {
      assert (messages + [m])[1..] == [];
    } else {
      assert (messages + [m])[1..] == messages[1..] + [m];
      StreamAppend(c, messages[1..], m);
    }
  }

  // ----- what the receiving end makes of a list of lines -----

  datatype Digest<+P> = Digest(messages: seq<Message<P>>, rejected: nat, failed: bool)

  function LastNumber<P>(messages: seq<Message<P>>): nat {
    if messages == [] then 0 else messages[|messages| - 1].number
  }

  // One line after another: a line that does not decode ends everything; a
  // message of another generation or a number already passed is skipped.
  function DigestOf<P>(c: Codec<P>, generation: nat, lines: seq<bytes>): (d: Digest<P>)
    decreases |lines|
  {
    if lines == [] then Digest([], 0, false)
    else
      var before := DigestOf(c, generation, lines[..|lines| - 1]);
      if before.failed then before
      else match Decode(c, lines[|lines| - 1])
        case None => Digest(before.messages, before.rejected + 1, true)
        case Some(m) =>
          if m.generation != generation || m.number <= LastNumber(before.messages)
          then before.(rejected := before.rejected + 1)
          else before.(messages := before.messages + [m])
  }

  // Of one generation, with strictly increasing positive numbers.
  ghost predicate Ordered<P>(generation: nat, messages: seq<Message<P>>) {
    && (forall i :: 0 <= i < |messages| ==> 0 < messages[i].number && messages[i].generation == generation)
    && (forall i, j :: 0 <= i < j < |messages| ==> messages[i].number < messages[j].number)
  }

  lemma OrderedAppend<P>(generation: nat, messages: seq<Message<P>>, m: Message<P>)
    requires Ordered(generation, messages) && m.generation == generation && m.number > LastNumber(messages)
    ensures Ordered(generation, messages + [m])
  {
    var n := |messages|;
    assert forall i :: 0 <= i < n ==> messages[i].number <= messages[n - 1].number;
  }

  // Whatever the peer sends, what gets through belongs to this generation and
  // has strictly increasing numbers.
  lemma {:induction false} DigestIsOrdered<P>(c: Codec<P>, generation: nat, lines: seq<bytes>)
    ensures Ordered(generation, DigestOf(c, generation, lines).messages)
    decreases |lines|
  {
    if lines != [] {
      var before := DigestOf(c, generation, lines[..|lines| - 1]);
      DigestIsOrdered(c, generation, lines[..|lines| - 1]);
      var m := Decode(c, lines[|lines| - 1]);
      if m.Some? && m.value.generation == generation && m.value.number > LastNumber(before.messages) {
        OrderedAppend(generation, before.messages, m.value);
      }
    }
  }

  // One more line, judged on top of the lines before it.
  lemma DigestStep<P>(c: Codec<P>, generation: nat, lines: seq<bytes>, line: bytes)
    requires !DigestOf(c, generation, lines).failed
    ensures var d := DigestOf(c, generation, lines);
            var m := Decode(c, line);
            DigestOf(c, generation, lines + [line]) ==
              if m.None? then Digest(d.messages, d.rejected + 1, true)
              else if m.value.generation != generation || m.value.number <= LastNumber(d.messages)
              then d.(rejected := d.rejected + 1)
              else d.(messages := d.messages + [m.value])
  {
    assert (lines + [line])[..|lines|] == lines;
  }

  // ----- the refinement of framing -----

  // What a channel's own `Send` accepts: numbers 1, 2, 3, ... of one
  // generation, all encodable.
  ghost predicate WellSent<P>(c: Codec<P>, generation: nat, messages: seq<Message<P>>) {
    && Encodable(c, messages)
    && forall i :: 0 <= i < |messages| ==> messages[i].number == i + 1 && messages[i].generation == generation
  }

  // If complete lines, and then some rest, are a prefix of a sender's stream,
  // the lines are exactly the frames of the first messages.
  lemma {:induction false} LinesAreFrames<P(!new)>(c: Codec<P>, messages: seq<Message<P>>,
                                                           lines: seq<bytes>, rest: bytes)
    requires Lawful(c) && Encodable(c, messages)
    requires forall i :: 0 <= i < |lines| ==> IsLine(lines[i])
    requires Join(lines) + rest <= Stream(c, messages)
    ensures |lines| <= |messages|
    ensures forall i :: 0 <= i < |lines| ==> lines[i] == Encode(c, messages[i]).value
    ensures NEWLINE !in rest ==> |rest| < MAX_MESSAGE
  {
    if messages == [] {
      JoinOfLines(lines);
    } else {
      var frame := Encode(c, messages[0]).value;
      var tail := Stream(c, messages[1..]);
      RoundTrip(c, messages[0]);
      if lines == [] {
        assert Join(lines) + rest == rest;
        if |rest| >= |frame| {
          assert rest[|frame| - 1] == frame[|frame| - 1];
        }
      } else {
        FirstLine(lines[0], Join(lines[1..]) + rest, frame, tail);
        assert Join(lines) + rest == lines[0] + (Join(lines[1..]) + rest);
        LinesAreFrames(c, messages[1..], lines[1..], rest);
      }
    }
  }

  // Two streams that agree cut their first line at the same place.
  lemma FirstLine(line: bytes, more: bytes, frame: bytes, tail: bytes)
    requires IsLine(line) && IsLine(frame) && line + more <= frame + tail
    ensures line == frame && more <= tail
  {
    var a, b := line + more, frame + tail;
    assert forall i :: 0 <= i < |a| ==> a[i] == b[i];
    assert forall i :: 0 <= i < |line| - 1 ==> line[i] == line[..|line| - 1][i];
    assert forall i :: 0 <= i < |frame| - 1 ==> frame[i] == frame[..|frame| - 1][i];
    assert forall i :: 0 <= i < |line| - 1 ==> b[i] != NEWLINE;
    assert forall i :: 0 <= i < |frame| - 1 ==> b[i] != NEWLINE;
    assert b[|line| - 1] == NEWLINE && b[|frame| - 1] == NEWLINE;
    assert |line| == |frame|;
    assert forall i :: 0 <= i < |line| ==> line[i] == a[i] && frame[i] == b[i];
    assert forall i :: 0 <= i < |more| ==> more[i] == a[|line| + i] && tail[i] == b[|line| + i];
  }

  lemma {:induction false} JoinOfLines(lines: seq<bytes>)
    requires forall i :: 0 <= i < |lines| ==> IsLine(lines[i])
    ensures |lines| <= |Join(lines)|
  {
    if lines != [] {
      JoinOfLines(lines[1..]);
    }
  }

  lemma {:induction false} FramesDigest<P(!new)>(c: Codec<P>, generation: nat, messages: seq<Message<P>>,
                                                         lines: seq<bytes>)
    requires Lawful(c) && WellSent(c, generation, messages)
    requires |lines| <= |messages|
    requires forall i :: 0 <= i < |lines| ==> lines[i] == Encode(c, messages[i]).value
    ensures DigestOf(c, generation, lines) == Digest(messages[..|lines|], 0, false)
    decreases |lines|
  {
    if lines != [] {
      var n := |lines| - 1;
      FramesDigest(c, generation, messages, lines[..n]);
      RoundTrip(c, messages[n]);
    }
  }

  // ----- the channel -----

  datatype Sending = Wrote(count: nat) | SendBlocked | SendBroken
  datatype Arrival = Bytes(data: bytes) | NothingYet | ReceiveBroken

  // How the last frame offered to the socket, and the last read, fared.
  datatype Push = Untried | Whole | Short | Blocked | Broken
  datatype Pull = Unread | Data | Nothing | HungUp

  datatype SendResult = Accepted(number: nat) | Refused | Raised
  datatype Receipt<+P> = Messages(batch: seq<Message<P>>) | ProtocolError

  function FindNewline(data: bytes): int {
    if data == [] then -1
    else if data[0] == NEWLINE then 0
    else var i := FindNewline(data[1..]); if i < 0 then -1 else i + 1
  }

  // The first newline, or none.
  lemma {:induction false} FindsNewline(data: bytes)
    ensures var i := FindNewline(data);
            if i < 0 then NEWLINE !in data else i < |data| && data[i] == NEWLINE && NEWLINE !in data[..i]
  {
    if data != [] && data[0] != NEWLINE {
      FindsNewline(data[1..]);
      var i := FindNewline(data[1..]);
      assert data == [data[0]] + data[1..];
      assert 0 <= i ==> data[..i + 1] == [data[0]] + data[1..][..i];
    }
  }

  class ControlChannel<P(!new)> {
    const codec: Codec<P>
    const generation: nat
    var output: seq<bytes>
    var input: bytes
    var lastSent: nat
    var lastReceived: nat
    var closed: bool
    var rejected: nat
    var dropped: nat

    ghost var accepted: seq<Message<P>>   // messages `Send` answered with a number
    ghost var wire: bytes                 // bytes the socket has taken
    ghost var arrived: bytes              // bytes the socket has given
    ghost var lines: seq<bytes>           // complete lines taken from them
    ghost var residue: bytes              // what followed the last complete line
    ghost var delivered: seq<Message<P>>  // messages `Receive` returned
    ghost var broken: bool                // a `Receive` raised
    ghost var pushed: Push
    ghost var pulled: Pull
    ghost var passes: nat                 // passes of the receiving loop

    // The sending half. Bytes on the wire never run ahead of, or differ from,
    // the frames of the accepted messages.
    ghost predicate Outgoing()
      reads this`output, this`accepted, this`lastSent, this`wire, this`closed
    {
      && |output| <= MAX_BACKLOG
      && WellSent(codec, generation, accepted)
      && |accepted| <= lastSent
      && wire <= Stream(codec, accepted)
      && (!closed ==> lastSent == |accepted| && wire + Join(output) == Stream(codec, accepted))
    }

    // The receiving half, for any peer: what was delivered is what the lines
    // taken so far amount to, whatever the sizes of the reads were. A call
    // that raises loses the messages it had collected, and closes for good.
    ghost predicate Incoming()
      reads this`broken, this`closed, this`input, this`lines, this`residue, this`arrived, this`rejected,
            this`lastReceived, this`delivered
    {
      if broken then
        && closed && input == []
        && Parsed() && Counted() && RaisedFor(lines, residue)
        && delivered <= Got()
      else
        Unraised() && delivered == Got()
    }

    ghost predicate Digested()
      reads this`rejected, this`lastReceived, this`lines
    {
      var d := DigestOf(codec, generation, lines);
      rejected == d.rejected && lastReceived == LastNumber(d.messages)
    }

    ghost predicate Counted()
      reads this`rejected, this`lines
    {
      rejected == DigestOf(codec, generation, lines).rejected
    }

    // The two reasons to raise: a line that is no message, or an unterminated
    // line of at least the maximum length.
    ghost predicate RaisedFor(lines: seq<bytes>, residue: bytes) {
      || DigestOf(codec, generation, lines).failed
      || (NEWLINE !in residue && |residue| >= MAX_MESSAGE)
    }

    ghost predicate Valid()
      reads this`output, this`accepted, this`lastSent, this`wire, this`closed, this`broken, this`input, this`lines,
            this`residue, this`arrived, this`rejected, this`lastReceived, this`delivered
    {
      Outgoing() && Incoming()
    }

    constructor (codec: Codec<P>, generation: nat)
      ensures Valid() && !closed && !broken
      ensures this.codec == codec && this.generation == generation
      ensures accepted == [] && wire == [] && arrived == [] && delivered == []
    {
      this.codec, this.generation := codec, generation;
      output, input := [], [];
      lastSent, lastReceived, closed, rejected, dropped := 0, 0, false, 0, 0;
      accepted, wire, arrived, lines, residue, delivered, broken := [], [], [], [], [], [], false;
      pushed, pulled, passes := Untried, Unread, 0;
    }

    // The operating system: any count, a would-block, or an error.
    method SocketSend(data: bytes) returns (r: Sending)
      modifies this`wire, this`pushed
      ensures r.Wrote? ==> r.count <= |data| && wire == old(wire) + data[..r.count]
      ensures !r.Wrote? ==> wire == old(wire)
      ensures pushed == match r
                        case SendBlocked => Blocked
                        case SendBroken => Broken
                        case Wrote(count) => if count == 0 then Broken else if count == |data| then Whole else Short
    {
      if * {
        pushed := Blocked;
        return SendBlocked;
      } else if * {
        pushed := Broken;
        return SendBroken;
      }
      var count: nat :| count <= |data|;
      wire := wire + data[..count];
      pushed := if count == 0 then Broken else if count == |data| then Whole else Short;
      return Wrote(count);
    }

    method SocketReceive(limit: nat) returns (r: Arrival)
      modifies this`arrived, this`pulled
      ensures r.Bytes? ==> |r.data| <= limit && arrived == old(arrived) + r.data
      ensures !r.Bytes? ==> arrived == old(arrived)
      ensures pulled == match r
                        case NothingYet => Nothing
                        case ReceiveBroken => HungUp
                        case Bytes(data) => if data == [] then HungUp else Data
    {
      if * {
        pulled := Nothing;
        return NothingYet;
      } else if * {
        pulled := HungUp;
        return ReceiveBroken;
      }
      var data: bytes :| |data| <= limit;
      arrived := arrived + data;
      pulled := if data == [] then HungUp else Data;
      return Bytes(data);
    }

    method Close()
      modifies this`closed, this`output, this`input
      ensures closed
      ensures old(closed) ==> output == old(output) && input == old(input)
      ensures !old(closed) ==> output == [] && input == []
    {
      if !closed {
        closed := true;
        output := [];
        input := [];
      }
    }

    // Push out as much of the backlog as the socket takes. If that closes the
    // channel, it was on an earlier frame or before the first byte of the
    // newest one: no byte of the newest frame has left.
    method Flush()
      modifies this`wire, this`output, this`closed, this`input, this`pushed
      ensures old(closed) ==> pushed == old(pushed)
      ensures !old(closed) ==> (closed <==> pushed.Broken?)
      ensures !closed && output != [] && |old(output)| <= MAX_BACKLOG ==> pushed.Short? || pushed.Blocked?
      ensures old(closed) ==> closed && output == old(output) && input == old(input) && wire == old(wire)
      ensures old(wire) <= wire
      ensures !closed ==> input == old(input) && |output| <= |old(output)|
                          && wire + Join(output) == old(wire + Join(output))
      ensures !old(closed) && closed ==>
                output == [] && input == [] && wire <= old(BeforeNewest(wire, output))
    {
      ghost var start, limit := wire, BeforeNewest(wire, output);
      if !closed {
        pushed := Untried;
      }
      for i := 0 to MAX_BACKLOG
        invariant if closed then pushed == old(pushed) else |output| == |old(output)| - i && !pushed.Broken?
        invariant closed == old(closed) && input == old(input)
        invariant closed ==> output == old(output) && wire == old(wire)
        invariant |output| <= |old(output)| && start <= wire
        invariant wire + Join(output) == old(wire + Join(output))
        invariant output != [] ==> BeforeNewest(wire, output) == limit
      {
        if closed || output == [] {
          break;
        }
        MoveFrame(wire, output);
        MoveFrameBeforeNewest(wire, output);
        var sent := SocketSend(output[0]);
        match sent {
          case Wrote(count) =>
            if count == 0 {
              Close();
              break;
            }
            if count == |output[0]| {
              assert output[0][..count] == output[0];
              output := output[1..];
            } else {
              MovePiece(wire[..|wire| - count], output, count);
              output := [output[0][count..]] + output[1..];
              break;
            }
          case SendBlocked =>
            break;
          case SendBroken =>
            Close();
            break;
        }
      }
    }

    // Queue one message. It counts as accepted only if it gets a number back;
    // of a message that does not, nothing is ever written. An open channel
    // refuses it only with eight frames waiting that the socket would not take,
    // and closes only if the socket broke.
    method Send(payload: P, now: int) returns (r: SendResult)
      requires Valid()
      modifies this
      ensures Valid()
      ensures old(closed) ==> closed && r == Refused && wire == old(wire)
      ensures r.Accepted? ==> !closed && r.number == |accepted|
                              && accepted == old(accepted) + [Message(generation, r.number, now, payload)]
      ensures !r.Accepted? ==> accepted == old(accepted)
      ensures r.Accepted? ==> r.number == old(lastSent) + 1
      ensures r.Refused? && !closed ==> |output| == 8 && (pushed.Short? || pushed.Blocked?)
      ensures r.Raised? ==> Encode(codec, Message(generation, old(lastSent) + 1, now, payload)).None?
      ensures closed && !old(closed) ==> pushed.Broken?
      ensures old(wire) <= wire
      ensures arrived == old(arrived) && delivered == old(delivered) && broken == old(broken)
    {
      if closed {
        return Refused;
      }
      FlushKeepsValid();
      if |output| >= MAX_BACKLOG {
        dropped := dropped + 1;
        return Refused;
      }
      r := Queue(Message(generation, lastSent + 1, now, payload));
    }

    // There is room for one more frame.
    method Queue(m: Message<P>) returns (r: SendResult)
      requires Valid() && |output| < MAX_BACKLOG
      requires m.generation == generation && m.number == lastSent + 1
      modifies this`lastSent, this`wire, this`output, this`closed, this`input, this`accepted, this`pushed
      ensures Valid() && old(wire) <= wire && (old(closed) ==> closed)
      ensures if old(closed) then pushed == old(pushed) else closed ==> pushed.Broken?
      ensures r.Refused? ==> closed
      ensures r.Accepted? ==> !closed && r.number == m.number == |accepted| && accepted == old(accepted) + [m]
      ensures !r.Accepted? ==> accepted == old(accepted)
      ensures r.Raised? <==> Encode(codec, m).None?
    {
      var data := Encode(codec, m);
      if data.None? {
        return Raised;
      }
      lastSent := m.number;
      output := output + [data.value];
      r := PushNewest(m);
    }

    // `Flush` between two other steps of a valid channel.
    method FlushKeepsValid()
      requires Valid()
      modifies this`wire, this`output, this`closed, this`input, this`pushed
      ensures Valid() && old(wire) <= wire && |output| <= |old(output)|
      ensures old(closed) ==> closed
      ensures if old(closed) then pushed == old(pushed)
              else (closed <==> pushed.Broken?) && (output == [] || pushed.Short? || pushed.Blocked?)
    {
      if output != [] {
        ghost var n := |output| - 1;
        assert output == output[..n] + [output[n]];
        NewestIsLast(wire, output[..n], output[n]);
      }
      ghost var before := Stream(codec, accepted);
      Flush();
      assert wire <= before;
    }

    // The newest frame is in the backlog; try to push, and answer.
    method PushNewest(m: Message<P>) returns (r: SendResult)
      requires Incoming() && 0 < |output| <= MAX_BACKLOG
      requires WellSent(codec, generation, accepted) && wire <= Stream(codec, accepted)
      requires |accepted| < lastSent && m.generation == generation && m.number == lastSent
      requires Encode(codec, m) == Some(output[|output| - 1])
      requires !closed ==> lastSent == |accepted| + 1
                           && wire + Join(output[..|output| - 1]) == Stream(codec, accepted)
      modifies this`wire, this`output, this`closed, this`input, this`accepted, this`pushed
      ensures Valid() && old(wire) <= wire
      ensures old(closed) ==> closed
      ensures if old(closed) then pushed == old(pushed) else closed ==> pushed.Broken?
      ensures if closed then r == Refused && accepted == old(accepted)
              else r == Accepted(m.number) && accepted == old(accepted) + [m]
    {
      ghost var frames, newest := output[..|output| - 1], output[|output| - 1];
      assert output == frames + [newest];
      NewestIsLast(wire, frames, newest);
      StreamAppend(codec, accepted, m);
      Flush();
      if closed {
        return Refused;
      }
      accepted := accepted + [m];
      return Accepted(m.number);
    }

    // Collect at most sixteen steps' worth of messages, and stop earlier only if
    // the socket has nothing more or is gone, or to raise.
    method Receive() returns (r: Receipt<P>)
      requires Valid()
      modifies this
      ensures Valid()
      ensures accepted == old(accepted) && old(wire) <= wire && old(arrived) <= arrived
      ensures r.Messages? ==> delivered == old(delivered) + r.batch && |r.batch| <= MAX_BATCH
                              && broken == old(broken)
      ensures r.ProtocolError? ==> closed && broken && delivered == old(delivered)
      ensures old(closed) ==> closed && r == Messages([])
      ensures !old(closed) && r.Messages? && !closed ==> passes == old(passes) + 16 || pulled.Nothing?
      ensures !old(closed) && r.Messages? && closed ==> pushed.Broken? || pulled.HungUp?
    {
      if closed {
        return Messages([]);
      }
      FlushKeepsValid();
      r := Collect();
    }

    // What the receiving loop gathers, and the three ways out of it.
    method Collect() returns (r: Receipt<P>)
      requires Valid() && !broken
      modifies this`arrived, this`input, this`residue, this`lines, this`rejected, this`lastReceived,
               this`closed, this`output, this`delivered, this`broken, this`pulled, this`passes
      ensures Valid()
      ensures r.Messages? && !closed ==> passes == old(passes) + 16 || pulled.Nothing?
      ensures r.Messages? && closed && !old(closed) ==> pulled.HungUp?
      ensures old(arrived) <= arrived && (old(closed) ==> closed)
      ensures r.Messages? ==> !broken && delivered == old(delivered) + r.batch && |r.batch| <= MAX_BATCH
      ensures r.ProtocolError? ==> closed && broken && delivered == old(delivered)
    {
      var batch, last := Gather();
      if last.Fail? {
        Break();
        return ProtocolError;
      }
      if last == Stop(true) {
        Close();
      }
      delivered := delivered + batch;
      return Messages(batch);
    }

    // The channel closes for good, and what it had collected is lost.
    method Break()
      requires Outgoing() && !closed && Parsed() && Counted() && RaisedFor(lines, residue) && delivered <= Got()
      modifies this`closed, this`output, this`input, this`broken
      ensures Valid() && closed && broken
    {
      Close();
      broken := true;
    }

    method Gather() returns (batch: seq<Message<P>>, last: Step<P>)
      requires Unraised()
      modifies this`arrived, this`input, this`residue, this`lines, this`rejected, this`lastReceived, this`pulled,
               this`passes
      ensures passes <= old(passes) + 16
      ensures last.Stop? || last.Fail? || passes == old(passes) + 16
      ensures last.Stop? && !closed ==> if last.hangUp then pulled.HungUp? else pulled.Nothing?
      ensures last.Stop? && closed ==> !last.hangUp
      ensures old(arrived) <= arrived
      ensures |batch| <= MAX_BATCH && old(Got()) + batch == Got()
      ensures last.Fail? ==> !closed && Parsed() && Counted() && RaisedFor(lines, residue)
      ensures !last.Fail? ==> Unraised()
    {
      batch, last := [], Skip;
      for i := 0 to MAX_BATCH
        invariant Unraised() && old(Got()) + batch == Got()
        invariant |batch| <= i && passes == old(passes) + i
        invariant !last.Fail? && !last.Stop?
        invariant old(arrived) <= arrived
      {
        last := Step();
        if last.Stop? || last.Fail? {
          break;
        }
        if last.Take? {
          assert old(Got()) + (batch + [last.m]) == old(Got()) + batch + [last.m];
          batch := batch + [last.m];
        }
      }
    }

    // The receiving half of a channel that has not raised.
    ghost predicate Unraised()
      reads this`input, this`lines, this`residue, this`arrived, this`closed, this`rejected, this`lastReceived
    {
      && |input| < MAX_MESSAGE
      && Parsed()
      && (if closed then input == [] else input == residue)
      && Digested()
      && !DigestOf(codec, generation, lines).failed
    }

    ghost predicate Parsed()
      reads this`lines, this`residue, this`arrived
    {
      Join(lines) + residue == arrived && forall i :: 0 <= i < |lines| ==> IsLine(lines[i])
    }

    // What becomes of a line: it is no message, a message to take, or one of
    // another generation or with a number already passed.
    ghost predicate Judged(line: bytes, last: nat, s: Step<P>) {
      match Decode(codec, line)
      case None => s == Fail
      case Some(m) => s == if m.generation == generation && last < m.number then Take(m) else Skip
    }

    // The first complete line of this data was taken and judged, and the rest
    // kept; if there is none, the data waits, unless it is too long already.
    ghost predicate TookFrom(data: bytes, before: seq<bytes>, last: nat, s: Step<P>)
      reads this`lines, this`input
    {
      if NEWLINE in data then
        && |lines| == |before| + 1 && lines[..|before|] == before
        && IsLine(lines[|before|]) && lines[|before|] + input == data
        && Judged(lines[|before|], last, s)
      else
        lines == before && input == data && s == if |data| >= MAX_MESSAGE then Fail else Skip
    }

    // One pass of the receiving loop: read if no line is complete, then take
    // the first complete line and judge it.
    method Step() returns (s: Step<P>)
      requires Unraised()
      modifies this`arrived, this`input, this`residue, this`lines, this`rejected, this`lastReceived, this`pulled,
               this`passes
      ensures old(arrived) <= arrived && passes == old(passes) + 1
      ensures s.Stop? && !closed ==> if s.hangUp then pulled.HungUp? else pulled.Nothing?
      ensures s.Stop? && closed ==> !s.hangUp
      ensures NEWLINE in old(input) || s.Stop? ==> arrived == old(arrived)
      ensures if s.Stop? then NEWLINE !in input && input == old(input) && lines == old(lines)
              else TookFrom(old(input) + arrived[|old(arrived)|..], old(lines), old(lastReceived), s)
      ensures s.Stop? || s.Skip? ==> Unraised() && Got() == old(Got())
      ensures s.Take? ==> Unraised() && Got() == old(Got()) + [s.m]
      ensures s.Fail? ==> !closed && Parsed() && Counted() && RaisedFor(lines, residue) && Got() == old(Got())
    {
      FindsNewline(input);
      var split := FindNewline(input);
      passes := passes + 1;
      if split >= 0 {
        s := Judge(split);
        return;
      }
      if closed {
        return Stop(false);
      }
      var got := SocketReceive(MAX_MESSAGE);
      if !got.Bytes? || got.data == [] {
        return Stop(!got.NothingYet?);
      }
      Associates(Join(lines), residue, got.data);
      s := TakeIn(got.data);
    }

    // Bytes that have just arrived join the input, which had no complete line.
    method TakeIn(data: bytes) returns (s: Step<P>)
      requires !closed && input == residue && |input| < MAX_MESSAGE && |data| <= MAX_MESSAGE && NEWLINE !in input
      requires Join(lines) + (residue + data) == arrived && forall i :: 0 <= i < |lines| ==> IsLine(lines[i])
      requires Digested() && !DigestOf(codec, generation, lines).failed
      modifies this`input, this`residue, this`lines, this`rejected, this`lastReceived
      ensures !s.Stop? && TookFrom(old(input) + data, old(lines), old(lastReceived), s)
      ensures s.Skip? ==> Unraised() && Got() == old(Got())
      ensures s.Take? ==> Unraised() && Got() == old(Got()) + [s.m]
      ensures s.Fail? ==> !closed && Parsed() && Counted() && RaisedFor(lines, residue) && Got() == old(Got())
    {
      input := input + data;
      residue := input;
      FindsNewline(input);
      var split := FindNewline(input);
      if split >= 0 {
        s := Judge(split);
      } else {
        s := if |input| >= MAX_MESSAGE then Fail else Skip;
      }
    }

    // Take the complete line that ends at `split` and judge it.
    method Judge(split: nat) returns (s: Step<P>)
      requires !closed && input == residue && Parsed() && Digested()
      requires !DigestOf(codec, generation, lines).failed
      requires split < |input| && input[split] == NEWLINE && NEWLINE !in input[..split]
      requires |input| - split <= MAX_MESSAGE
      modifies this`input, this`residue, this`lines, this`rejected, this`lastReceived
      ensures !s.Stop? && TookFrom(old(input), old(lines), old(lastReceived), s)
      ensures s.Skip? ==> Unraised() && Got() == old(Got())
      ensures s.Take? ==> Unraised() && Got() == old(Got()) + [s.m]
      ensures s.Fail? ==> !closed && Parsed() && Counted() && RaisedFor(lines, residue) && Got() == old(Got())
    {
      var line := input[..split + 1];
      TakeLine(lines, input, split);
      DigestStep(codec, generation, lines, line);
      input := input[split + 1..];
      residue := input;
      lines := lines + [line];
      var message := Decode(codec, line);
      if message.None? {
        rejected := rejected + 1;
        return Fail;
      }
      if message.value.generation != generation || message.value.number <= lastReceived {
        rejected := rejected + 1;
        return Skip;
      }
      lastReceived := message.value.number;
      return Take(message.value);
    }

    ghost function Got(): seq<Message<P>>
      reads this`lines
    {
      DigestOf(codec, generation, lines).messages
    }
  }

  datatype Step<+P> = Stop(hangUp: bool) | Skip | Fail | Take(m: Message<P>)

  lemma TakeLine(lines: seq<bytes>, input: bytes, split: nat)
    requires split < |input| && input[split] == NEWLINE && NEWLINE !in input[..split]
    ensures IsLine(input[..split + 1])
    ensures Join(lines + [input[..split + 1]]) + input[split + 1..] == Join(lines) + input
  {
    var line := input[..split + 1];
    assert line[..split] == input[..split];
    JoinAppend(lines, line);
    assert input == line + input[split + 1..];
    Associates(Join(lines), line, input[split + 1..]);
  }

  // ----- any peer -----

  // Against any byte stream at all: the backlog holds at most eight frames,
  // the input buffer less than one maximal message between calls, and what is
  // delivered is of this generation with strictly increasing numbers.
  lemma ChannelBounds<P(!new)>(channel: ControlChannel<P>)
    requires channel.Valid()
    ensures |channel.output| <= 8 && |channel.input| < 4096
    ensures Ordered(channel.generation, channel.delivered)
  {
    DigestIsOrdered(channel.codec, channel.generation, channel.lines);
    var all := DigestOf(channel.codec, channel.generation, channel.lines).messages;
    assert forall i :: 0 <= i < |channel.delivered| ==> channel.delivered[i] == all[i];
  }

  // ----- two channels, one stream -----

  // Stream framing is a refinement: for any partial writes and any partial
  // reads, what the receiving channel has delivered is a prefix of what the
  // sending channel accepted, in order, without duplicates or rejections, and
  // nothing was ever raised.
  lemma FramingRefinement<P(!new)>(sender: ControlChannel<P>, receiver: ControlChannel<P>)
    requires sender.Valid() && receiver.Valid() && Lawful(sender.codec)
    requires receiver.codec == sender.codec && receiver.generation == sender.generation
    requires receiver.arrived <= sender.wire
    ensures receiver.delivered <= sender.accepted
    ensures |receiver.lines| <= |sender.accepted| && receiver.delivered == sender.accepted[..|receiver.lines|]
    ensures receiver.rejected == 0 && !receiver.broken
  {
    var c := sender.codec;
    assert receiver.arrived <= Stream(c, sender.accepted);
    LinesAreFrames(c, sender.accepted, receiver.lines, receiver.residue);
    FramesDigest(c, sender.generation, sender.accepted, receiver.lines);
  }

  lemma NeedsALine(lines: seq<bytes>, rest: bytes)
    requires NEWLINE in Join(lines) + rest && NEWLINE !in rest
    ensures lines != []
  {
    assert lines == [] ==> Join(lines) + rest == rest;
  }

  lemma {:induction false} LinesAreAll<P(!new)>(c: Codec<P>, messages: seq<Message<P>>, lines: seq<bytes>, rest: bytes)
    requires Lawful(c) && Encodable(c, messages)
    requires forall i :: 0 <= i < |lines| ==> IsLine(lines[i])
    requires Join(lines) + rest == Stream(c, messages) && NEWLINE !in rest
    ensures |messages| <= |lines|
  {
    if messages != [] {
      var frame := Encode(c, messages[0]).value;
      var tail := Stream(c, messages[1..]);
      RoundTrip(c, messages[0]);
      assert (Join(lines) + rest)[|frame| - 1] == NEWLINE;
      NeedsALine(lines, rest);
      assert Join(lines) + rest == lines[0] + (Join(lines[1..]) + rest);
      FirstLine(lines[0], Join(lines[1..]) + rest, frame, tail);
      LinesAreAll(c, messages[1..], lines[1..], rest);
    }
  }

  // And nothing is lost: once every byte of the stream has arrived and every
  // complete line has been taken, exactly the accepted messages are delivered.
  lemma NothingLost<P(!new)>(sender: ControlChannel<P>, receiver: ControlChannel<P>)
    requires sender.Valid() && receiver.Valid() && Lawful(sender.codec)
    requires receiver.codec == sender.codec && receiver.generation == sender.generation
    requires sender.wire == Stream(sender.codec, sender.accepted) && receiver.arrived == sender.wire
    requires NEWLINE !in receiver.residue
    ensures receiver.delivered == sender.accepted
  {
    FramingRefinement(sender, receiver);
    LinesAreAll(sender.codec, sender.accepted, receiver.lines, receiver.residue);
  }
}
