/**
 Messages on the control pipe: four bytes of length, least significant first, and the payload. The operating
 system moves as many bytes a call as it likes.
 */
module PipeFraming {
  type byte = b: int | 0 <= b < 256

  const MAXIMUM_MESSAGE_BYTES: nat := 1_048_576

  const HEADER_BYTES: nat := 4

  function Header(length: nat): seq<byte> {
    [length % 256, length / 256 % 256, length / 65_536 % 256, length / 16_777_216 % 256]
  }

  function Length(header: seq<byte>): nat
    requires |header| == HEADER_BYTES
  {
    header[0] as int + 256 * header[1] as int + 65_536 * header[2] as int + 16_777_216 * header[3] as int
  }

  predicate Acceptable(length: nat) {
    0 < length <= MAXIMUM_MESSAGE_BYTES
  }

  function Frame(payload: seq<byte>): seq<byte> {
    Header(|payload|) + payload
  }

  /** A byte stream in message order. */
  function Framed(payloads: seq<seq<byte>>): seq<byte> {
    if payloads == [] then [] else Frame(payloads[0]) + Framed(payloads[1..])
  }

  /** The messages a reader finds before the stream ends or a length is out of range. */
  function Messages(stream: seq<byte>): seq<seq<byte>> {
    if |stream| < HEADER_BYTES then []
    else
      var length := Length(stream[..HEADER_BYTES]);
      if !Acceptable(length) || |stream| < HEADER_BYTES + length then []
      else [stream[HEADER_BYTES..HEADER_BYTES + length]] + Messages(stream[HEADER_BYTES + length..])
  }

  /** One end of the pipe: bytes still to come in, bytes gone out, and how many bytes each call may move; no bytes
      means the call fails. */
  class Pipe {
    const grants: nat -> nat
    var calls: nat
    var incoming: seq<byte>
    var outgoing: seq<byte>

    constructor (grants: nat -> nat, incoming: seq<byte>)
      ensures this.grants == grants && this.incoming == incoming && outgoing == []
    {
      this.grants, calls, this.incoming, outgoing := grants, 0, incoming, [];
    }

    /** No call fails while there is something to move. */
    ghost predicate Healthy() {
      forall call: nat :: grants(call) > 0
    }

    method ReadFile(destination: array<byte>, offset: nat, want: nat) returns (read: nat)
      requires 0 < want && offset + want <= destination.Length
      modifies this`calls, this`incoming, destination
      ensures read <= want && read <= old(|incoming|)
      ensures incoming == old(incoming)[read..]
      ensures destination[..offset] == old(destination[..offset])
      ensures destination[offset..offset + read] == old(incoming)[..read]
      ensures Healthy() && read == 0 ==> old(incoming) == []
    {
      read := grants(calls);
      if read > want {
        read := want;
      }
      if read > |incoming| {
        read := |incoming|;
      }
      forall i | 0 <= i < read {
        destination[offset + i] := incoming[i];
      }
      calls, incoming := calls + 1, incoming[read..];
    }

    method WriteFile(source: seq<byte>) returns (written: nat)
      requires source != []
      modifies this`calls, this`outgoing
      ensures written <= |source| && outgoing == old(outgoing) + source[..written]
      ensures Healthy() ==> written > 0
    {
      written := grants(calls);
      if written > |source| {
        written := |source|;
      }
      calls, outgoing := calls + 1, outgoing + source[..written];
    }

    /** However the bytes arrive: all of them are read, in order, or the stream ended or a call failed. */
    method ReadExact(destination: array<byte>) returns (ok: bool)
      modifies this`calls, this`incoming, destination
      ensures ok ==> destination.Length <= old(|incoming|) && destination[..] == old(incoming)[..destination.Length]
      ensures ok ==> incoming == old(incoming)[destination.Length..]
      ensures Healthy() ==> (ok <==> destination.Length <= old(|incoming|))
    {
      var offset := 0;
      while offset < destination.Length
        invariant offset <= destination.Length && offset <= old(|incoming|)
        invariant destination[..offset] == old(incoming)[..offset]
        invariant incoming == old(incoming)[offset..]
      {
        var read := ReadFile(destination, offset, destination.Length - offset);
        if read == 0 {
          return false;
        }
        assert destination[..offset + read] == destination[..offset] + destination[offset..offset + read];
        offset := offset + read;
      }
      return true;
    }

    /** However the bytes leave: all of them are written, in order, or a call failed after some of them. */
    method WriteAll(source: seq<byte>) returns (ok: bool)
      modifies this`calls, this`outgoing
      ensures old(outgoing) <= outgoing <= old(outgoing) + source
      ensures ok <==> outgoing == old(outgoing) + source
      ensures Healthy() ==> ok
    {
      var offset := 0;
      while offset < |source|
        invariant offset <= |source| && outgoing == old(outgoing) + source[..offset]
      {
        var written := WriteFile(source[offset..]);
        if written == 0 {
          return false;
        }
        assert source[..offset + written] == source[..offset] + source[offset..][..written];
        offset := offset + written;
      }
      return true;
    }

    /** A payload that is empty or too long leaves no byte on the pipe; any other leaves its frame, or the front of
        it when a call fails. */
    method Send(payload: seq<byte>) returns (ok: bool)
      modifies this`calls, this`outgoing
      ensures !Acceptable(|payload|) ==> !ok && outgoing == old(outgoing)
      ensures Acceptable(|payload|) ==> (ok <==> outgoing == old(outgoing) + Frame(payload))
      ensures old(outgoing) <= outgoing <= old(outgoing) + Frame(payload)
      ensures Healthy() ==> (ok <==> Acceptable(|payload|))
    {
      if payload == [] || |payload| > MAXIMUM_MESSAGE_BYTES {
        return false;
      }
      ghost var before := outgoing;
      assert before + Frame(payload) == before + Header(|payload|) + payload;
      ok := WriteAll(Header(|payload|));
      if ok {
        ok := WriteAll(payload);
      }
    }

    /** The reading loop: it hands on messages of the stream in order, and all of them unless it is told to stop or
        a call fails. The flag is asked before each message: it covers a shutdown and a reply that could not be
        sent. */
    method HandleConnection(goesOn: nat -> bool) returns (handled: seq<seq<byte>>)
      modifies this`calls, this`incoming
      ensures handled <= Messages(old(incoming))
      ensures Healthy() && (forall k: nat :: goesOn(k)) ==> handled == Messages(old(incoming))
    {
      handled := [];
      while goesOn(|handled|)
        invariant handled + Messages(incoming) == Messages(old(incoming))
        decreases |incoming|
      {
        var ok, payload := ReadMessage();
        if !ok {
          return;
        }
        handled := handled + [payload];
      }
    }

    method ReadMessage() returns (ok: bool, message: seq<byte>)
      modifies this`calls, this`incoming
      ensures ok ==> Messages(old(incoming)) == [message] + Messages(incoming) && |incoming| < |old(incoming)|
      ensures !ok && Healthy() ==> Messages(old(incoming)) == []
    {
      ghost var stream := incoming;
      message := [];
      var header := new byte[HEADER_BYTES];
      ok := ReadExact(header);
      if !ok {
        return;
      }
      assert header[..] == stream[..HEADER_BYTES];
      var length := Length(header[..]);
      if !Acceptable(length) {
        return false, message;
      }
      var payload := new byte[length];
      ok := ReadExact(payload);
      if !ok {
        return;
      }
      message := payload[..];
      assert message == stream[HEADER_BYTES..HEADER_BYTES + length];
      assert incoming == stream[HEADER_BYTES + length..];
    }
  }

  // ---------------------------------------------------------------------------------------------
  // Round trip
  // ---------------------------------------------------------------------------------------------

  ghost predicate AllAcceptable(payloads: seq<seq<byte>>) {
    forall k :: 0 <= k < |payloads| ==> Acceptable(|payloads[k]|)
  }

  lemma HeaderHoldsLength(length: nat)
    requires length <= MAXIMUM_MESSAGE_BYTES
    ensures Length(Header(length)) == length
  {
    var q := length / 256;
    assert length / 65_536 == q / 256;
  }

  /** The value of four bytes, the first one counting least. */
  function LeastFirst(bytes: seq<byte>): nat
    requires |bytes| >= 4
  {
    bytes[0] as nat + 0x100 * (bytes[1] as nat + 0x100 * (bytes[2] as nat + 0x100 * bytes[3] as nat))
  }

  /** A frame of any payload of less than 4 GiB is its length in four bytes, least significant first, and the
      payload. */
  lemma FrameLayout(payload: seq<byte>)
    requires |payload| < 0x1_0000_0000
    ensures var frame := Frame(payload);
            |frame| == 4 + |payload| && LeastFirst(frame) == |payload| && frame[4..] == payload
  {
    var length := |payload|;
    assert length / 65_536 == length / 256 / 256;
    assert length / 16_777_216 == length / 256 / 256 / 256;
  }

  /** A stream has a first message exactly if its first four bytes give a length of 1 to 1 MiB and that many bytes
      follow; these are the message. */
  lemma FirstMessageIff(stream: seq<byte>)
    ensures Messages(stream) != [] <==>
            |stream| >= 4 && 1 <= LeastFirst(stream) <= 1_048_576 && |stream| >= 4 + LeastFirst(stream)
    ensures Messages(stream) != [] ==> Messages(stream)[0] == stream[4..4 + LeastFirst(stream)]
  {
  }

  /** One payload arrives exactly if it has 1 byte to 1 MiB. */
  lemma ArrivesIff(payload: seq<byte>)
    requires |payload| < 0x1_0000_0000
    ensures Messages(Frame(payload)) == [payload] <==> 1 <= |payload| <= 1_048_576
  {
    FrameLayout(payload);
    FirstMessageIff(Frame(payload));
    if 1 <= |payload| <= 1_048_576 {
      FrameIsRead(payload, []);
      assert Frame(payload) + [] == Frame(payload);
    }
  }

  /** One whole frame in front of anything is read as its payload. */
  lemma FrameIsRead(payload: seq<byte>, rest: seq<byte>)
    requires Acceptable(|payload|)
    ensures Messages(Frame(payload) + rest) == [payload] + Messages(rest)
  {
    var stream := Frame(payload) + rest;
    HeaderHoldsLength(|payload|);
    assert stream[..HEADER_BYTES] == Header(|payload|);
    assert stream[HEADER_BYTES..HEADER_BYTES + |payload|] == payload;
    assert stream[HEADER_BYTES + |payload|..] == rest;
  }

  lemma Prepended(payloads: seq<seq<byte>>, more: seq<seq<byte>>)
    requires payloads != []
    ensures [payloads[0]] + (payloads[1..] + more) == payloads + more
  {
  }

  /** Whole frames are read first, whatever follows them. */
  lemma {:induction false} FramesAreRead(payloads: seq<seq<byte>>, rest: seq<byte>)
    requires AllAcceptable(payloads)
    ensures Messages(Framed(payloads) + rest) == payloads + Messages(rest)
  {
    if payloads == [] {
      assert Framed(payloads) + rest == rest;
    } else {
      var tail := Framed(payloads[1..]) + rest;
      assert Framed(payloads) + rest == Frame(payloads[0]) + tail;
      FrameIsRead(payloads[0], tail);
      FramesAreRead(payloads[1..], rest);
      Prepended(payloads, Messages(rest));
    }
  }

  /** The reader gets back exactly the payloads. */
  lemma RoundTrip(payloads: seq<seq<byte>>)
    requires AllAcceptable(payloads)
    ensures Messages(Framed(payloads)) == payloads
  {
    FramesAreRead(payloads, []);
    assert Framed(payloads) + [] == Framed(payloads);
  }

  /** The number of frames that lie wholly in the first bytes of the stream. */
  function WholeFrames(payloads: seq<seq<byte>>, bytes: nat): nat {
    if payloads == [] || bytes < |Frame(payloads[0])| then 0
    else 1 + WholeFrames(payloads[1..], bytes - |Frame(payloads[0])|)
  }

  lemma CutFrameIsNotRead(payload: seq<byte>, bytes: nat)
    requires Acceptable(|payload|) && bytes < |Frame(payload)|
    ensures Messages(Frame(payload)[..bytes]) == []
  {
    HeaderHoldsLength(|payload|);
    if bytes >= HEADER_BYTES {
      assert Frame(payload)[..bytes][..HEADER_BYTES] == Header(|payload|);
    }
  }

  /** A stream cut off anywhere, as a broken pipe leaves it, gives exactly the messages that were sent whole. */
  lemma {:induction false} CutStreamGivesWholeFrames(payloads: seq<seq<byte>>, bytes: nat)
    requires AllAcceptable(payloads) && bytes <= |Framed(payloads)|
    ensures WholeFrames(payloads, bytes) <= |payloads|
    ensures Messages(Framed(payloads)[..bytes]) == payloads[..WholeFrames(payloads, bytes)]
  {
    if payloads != [] {
      var frame, rest := Frame(payloads[0]), Framed(payloads[1..]);
      var cut := Framed(payloads)[..bytes];
      if bytes < |frame| {
        assert cut == frame[..bytes];
        CutFrameIsNotRead(payloads[0], bytes);
      } else {
        assert cut == frame + rest[..bytes - |frame|];
        CutStreamGivesWholeFrames(payloads[1..], bytes - |frame|);
        FrameIsRead(payloads[0], rest[..bytes - |frame|]);
      }
    }
  }

  /** A length out of range ends the reading: what follows it is never taken for messages. */
  lemma InvalidLengthEndsReading(payloads: seq<seq<byte>>, header: seq<byte>, rest: seq<byte>)
    requires AllAcceptable(payloads)
    requires |header| == HEADER_BYTES && !Acceptable(Length(header))
    ensures Messages(Framed(payloads) + header + rest) == payloads
  {
    FramesAreRead(payloads, header + rest);
    assert (header + rest)[..HEADER_BYTES] == header;
    assert Framed(payloads) + header + rest == Framed(payloads) + (header + rest);
  }

  lemma {:induction false} FramedConcat(a: seq<seq<byte>>, b: seq<seq<byte>>)
    ensures Framed(a + b) == Framed(a) + Framed(b)
  {
    if a == [] {
      assert a + b == b;
    } else {
      assert (a + b)[1..] == a[1..] + b;
      FramedConcat(a[1..], b);
      assert Frame(a[0]) + (Framed(a[1..]) + Framed(b)) == Frame(a[0]) + Framed(a[1..]) + Framed(b);
    }
  }
}
