/**
 Several senders on one pipe: each takes the write lock, writes its frame in as many parts as the system
 likes, and releases the lock, also when a write failed. The next sender then writes on.
 */
module PipeSenders {
  import opened Common
  import opened PipeFraming

  /** A frame on its way: how many of its bytes its sender has written. */
  datatype Attempt = Attempt(sender: nat, payload: seq<byte>, written: nat)

  /** The bytes on the pipe, the attempt that holds the write lock, how many payloads each sender has begun, and the
      attempts that ended, in order. */
  datatype Wire = Wire(outgoing: seq<byte>, lock: Option<Attempt>, next: seq<nat>, ended: seq<Attempt>)

  datatype Step = Begin(sender: nat) | Write(bytes: nat) | Finish | Fail

  /** What each sender sends, in its own order. */
  type Programs = seq<seq<seq<byte>>>

  function Start(programs: Programs): Wire {
    Wire([], None, seq(|programs|, _ => 0), [])
  }

  predicate Whole(a: Attempt) {
    a.written == |Frame(a.payload)|
  }

  /** A frame of which only a front was written. */
  predicate Cut(a: Attempt) {
    0 < a.written < |Frame(a.payload)|
  }

  /** A sender begins when it is through with its payload before; it waits for the lock unless the payload is
      refused. One write call is about the header or about the payload. */
  predicate Enabled(programs: Programs, w: Wire, step: Step) {
    match step
    case Begin(sender) =>
      && sender < |programs| == |w.next| && w.next[sender] < |programs[sender]|
      && (w.lock.Some? ==>
            w.lock.value.sender != sender && !Acceptable(|programs[sender][w.next[sender]]|))
    case Write(bytes) =>
      && w.lock.Some? && 0 < bytes && w.lock.value.written + bytes <= |Frame(w.lock.value.payload)|
      && (w.lock.value.written < HEADER_BYTES ==> w.lock.value.written + bytes <= HEADER_BYTES)
    case Finish => w.lock.Some? && Whole(w.lock.value)
    case Fail => w.lock.Some? && w.lock.value.written < |Frame(w.lock.value.payload)|
  }

  function Next(programs: Programs, w: Wire, step: Step): Wire
    requires Enabled(programs, w, step)
  {
    match step
    case Begin(sender) =>
      var payload := programs[sender][w.next[sender]];
      var begun := w.(next := w.next[sender := w.next[sender] + 1]);
      if Acceptable(|payload|) then begun.(lock := Some(Attempt(sender, payload, 0))) else begun
    case Write(bytes) =>
      var a := w.lock.value;
      w.(outgoing := w.outgoing + Frame(a.payload)[a.written..a.written + bytes],
         lock := Some(a.(written := a.written + bytes)))
    case Finish => w.(lock := None, ended := w.ended + [w.lock.value])
    case Fail => w.(lock := None, ended := w.ended + [w.lock.value])
  }

  ghost predicate Reaches(programs: Programs, from: Wire, steps: seq<Step>, to: Wire)
    decreases |steps|
  {
    if steps == [] then from == to
    else Enabled(programs, from, steps[0]) && Reaches(programs, Next(programs, from, steps[0]), steps[1..], to)
  }

  // ---------------------------------------------------------------------------------------------
  // The invariant
  // ---------------------------------------------------------------------------------------------

  /** All attempts so far, in lock order. */
  function Attempts(w: Wire): seq<Attempt> {
    if w.lock.Some? then w.ended + [w.lock.value] else w.ended
  }

  function Front(a: Attempt): seq<byte> {
    if a.written <= |Frame(a.payload)| then Frame(a.payload)[..a.written] else []
  }

  /** What the attempts leave on the pipe. */
  function Stream(attempts: seq<Attempt>): seq<byte> {
    if attempts == [] then [] else Stream(attempts[..|attempts| - 1]) + Front(attempts[|attempts| - 1])
  }

  /** The payloads of one sender's attempts. */
  function PayloadsOf(attempts: seq<Attempt>, sender: nat): seq<seq<byte>> {
    if attempts == [] then []
    else
      var before, last := PayloadsOf(attempts[..|attempts| - 1], sender), attempts[|attempts| - 1];
      if last.sender == sender then before + [last.payload] else before
  }

  /** The payloads that are not refused. */
  function Accepted(payloads: seq<seq<byte>>): seq<seq<byte>> {
    if payloads == [] then []
    else
      var before, last := Accepted(payloads[..|payloads| - 1]), payloads[|payloads| - 1];
      if Acceptable(|last|) then before + [last] else before
  }

  predicate Sound(a: Attempt) {
    Acceptable(|a.payload|) && a.written <= |Frame(a.payload)|
  }

  ghost predicate AllSound(attempts: seq<Attempt>) {
    forall i :: 0 <= i < |attempts| ==> Sound(attempts[i])
  }

  /** A sender's attempts are its acceptable payloads, in its own order. */
  ghost predicate InOrder(programs: Programs, w: Wire, sender: nat)
    requires sender < |programs| == |w.next|
  {
    && w.next[sender] <= |programs[sender]|
    && PayloadsOf(Attempts(w), sender) == Accepted(programs[sender][..w.next[sender]])
  }

  ghost predicate Inv(programs: Programs, w: Wire) {
    && |w.next| == |programs|
    && AllSound(Attempts(w)) && w.outgoing == Stream(Attempts(w))
    && AllInOrder(programs, w)
  }

  ghost predicate AllInOrder(programs: Programs, w: Wire)
    requires |w.next| == |programs|
  {
    forall sender :: 0 <= sender < |programs| ==> InOrder(programs, w, sender)
  }

  lemma AcceptedGrows(payloads: seq<seq<byte>>, n: nat)
    requires n < |payloads|
    ensures Accepted(payloads[..n + 1])
            == Accepted(payloads[..n]) + if Acceptable(|payloads[n]|) then [payloads[n]] else []
  {
    assert payloads[..n + 1][..n] == payloads[..n];
  }

  lemma AttemptsGrow(attempts: seq<Attempt>, a: Attempt, sender: nat)
    ensures Stream(attempts + [a]) == Stream(attempts) + Front(a)
    ensures PayloadsOf(attempts + [a], sender)
            == PayloadsOf(attempts, sender) + if a.sender == sender then [a.payload] else []
  {
    assert (attempts + [a])[..|attempts|] == attempts;
  }

  /** One sender's view of a beginning. */
  lemma BeginKeepsOrder(programs: Programs, w: Wire, sender: nat, s: nat)
    requires Enabled(programs, w, Begin(sender))
    requires s < |programs| && InOrder(programs, w, s)
    ensures InOrder(programs, Next(programs, w, Begin(sender)), s)
  {
    var payload := programs[sender][w.next[sender]];
    if s == sender {
      AcceptedGrows(programs[sender], w.next[sender]);
    }
    if Acceptable(|payload|) {
      AttemptsGrow(w.ended, Attempt(sender, payload, 0), s);
    }
  }

  lemma BeginKeepsInv(programs: Programs, w: Wire, sender: nat)
    requires Inv(programs, w) && Enabled(programs, w, Begin(sender))
    ensures Inv(programs, Next(programs, w, Begin(sender)))
  {
    var next := Next(programs, w, Begin(sender));
    if next.lock != w.lock {
      NewAttempt(w.ended, next.lock.value);
      assert Attempts(next) == w.ended + [next.lock.value] && Attempts(w) == w.ended;
    } else {
      assert Attempts(next) == Attempts(w);
    }
    BeginKeepsOrders(programs, w, sender);
  }

  lemma NewAttempt(ended: seq<Attempt>, a: Attempt)
    requires AllSound(ended) && Acceptable(|a.payload|) && a.written == 0
    ensures AllSound(ended + [a]) && Stream(ended + [a]) == Stream(ended)
  {
    AttemptsGrow(ended, a, a.sender);
    NothingAppended(Stream(ended));
  }

  lemma BeginKeepsOrders(programs: Programs, w: Wire, sender: nat)
    requires |w.next| == |programs| && AllInOrder(programs, w) && Enabled(programs, w, Begin(sender))
    ensures AllInOrder(programs, Next(programs, w, Begin(sender)))
  {
    forall s | 0 <= s < |programs|
      ensures InOrder(programs, Next(programs, w, Begin(sender)), s)
    {
      BeginKeepsOrder(programs, w, sender, s);
    }
  }

  lemma FrontGrows(a: Attempt, bytes: nat)
    requires a.written + bytes <= |Frame(a.payload)|
    ensures Front(a.(written := a.written + bytes))
            == Front(a) + Frame(a.payload)[a.written..a.written + bytes]
  {
  }

  lemma WriteKeepsInv(programs: Programs, w: Wire, bytes: nat)
    requires Inv(programs, w) && Enabled(programs, w, Write(bytes))
    ensures Inv(programs, Next(programs, w, Write(bytes)))
  {
    var next := Next(programs, w, Write(bytes));
    var a := w.lock.value;
    WriteGrowsStream(w.ended, a, bytes);
    assert Attempts(next) == w.ended + [a.(written := a.written + bytes)];
    WriteKeepsOrders(programs, w, bytes);
  }

  lemma WriteKeepsOrders(programs: Programs, w: Wire, bytes: nat)
    requires |w.next| == |programs| && AllInOrder(programs, w) && Enabled(programs, w, Write(bytes))
    ensures AllInOrder(programs, Next(programs, w, Write(bytes)))
  {
    forall s | 0 <= s < |programs|
      ensures InOrder(programs, Next(programs, w, Write(bytes)), s)
    {
      WriteKeepsOrder(programs, w, bytes, s);
    }
  }

  lemma WriteKeepsOrder(programs: Programs, w: Wire, bytes: nat, s: nat)
    requires Enabled(programs, w, Write(bytes))
    requires s < |programs| == |w.next| && InOrder(programs, w, s)
    ensures InOrder(programs, Next(programs, w, Write(bytes)), s)
  {
    AttemptsGrow(w.ended, w.lock.value, s);
    AttemptsGrow(w.ended, Next(programs, w, Write(bytes)).lock.value, s);
  }

  lemma WriteGrowsStream(ended: seq<Attempt>, a: Attempt, bytes: nat)
    requires AllSound(ended + [a]) && a.written + bytes <= |Frame(a.payload)|
    ensures var b := a.(written := a.written + bytes);
            && AllSound(ended + [b])
            && Stream(ended + [b]) == Stream(ended + [a]) + Frame(a.payload)[a.written..a.written + bytes]
  {
    var b := a.(written := a.written + bytes);
    FrontGrows(a, bytes);
    AttemptsGrow(ended, a, a.sender);
    AttemptsGrow(ended, b, a.sender);
    Associative(Stream(ended), Front(a), Frame(a.payload)[a.written..a.written + bytes]);
    LastStaysSound(ended, a, b);
  }

  lemma LastStaysSound(ended: seq<Attempt>, a: Attempt, b: Attempt)
    requires AllSound(ended + [a]) && (Sound(a) ==> Sound(b))
    ensures AllSound(ended + [b])
  {
    assert Sound((ended + [a])[|ended|]);
    assert forall i :: 0 <= i < |ended| ==> (ended + [b])[i] == (ended + [a])[i];
  }

  /** Whether an attempt ends well or not, it keeps its place. */
  lemma EndKeepsInv(programs: Programs, w: Wire, step: Step)
    requires Inv(programs, w) && Enabled(programs, w, step) && (step.Finish? || step.Fail?)
    ensures Inv(programs, Next(programs, w, step))
  {
    var next := Next(programs, w, step);
    assert Attempts(next) == Attempts(w);
    forall s | 0 <= s < |programs|
      ensures InOrder(programs, next, s)
    {
      assert InOrder(programs, w, s);
    }
  }

  lemma {:induction false} RunKeepsInv(programs: Programs, from: Wire, steps: seq<Step>, to: Wire)
    requires Inv(programs, from) && Reaches(programs, from, steps, to)
    ensures Inv(programs, to)
    decreases |steps|
  {
    if steps != [] {
      match steps[0] {
        case Begin(sender) => BeginKeepsInv(programs, from, sender);
        case Write(bytes) => WriteKeepsInv(programs, from, bytes);
        case Finish => EndKeepsInv(programs, from, Finish);
        case Fail => EndKeepsInv(programs, from, Fail);
      }
      RunKeepsInv(programs, Next(programs, from, steps[0]), steps[1..], to);
    }
  }

  /** In every reachable state of every interleaving the pipe has the fronts of the attempts, in lock order, and
      each sender's attempts are its acceptable payloads in its own order. */
  lemma WireHoldsAttempts(programs: Programs, steps: seq<Step>, w: Wire)
    requires Reaches(programs, Start(programs), steps, w)
    ensures Inv(programs, w)
  {
    forall sender | 0 <= sender < |programs|
      ensures InOrder(programs, Start(programs), sender)
    {
      assert programs[sender][..0] == [];
    }
    RunKeepsInv(programs, Start(programs), steps, w);
  }

  // ---------------------------------------------------------------------------------------------
  // Whole frames
  // ---------------------------------------------------------------------------------------------

  /** The payloads whose frames were written to the end. */
  function Delivered(attempts: seq<Attempt>): seq<seq<byte>> {
    if attempts == [] then []
    else
      var before, last := Delivered(attempts[..|attempts| - 1]), attempts[|attempts| - 1];
      if Whole(last) then before + [last.payload] else before
  }

  /** The cut frame at the end of the stream, if the last bytes are of one. */
  function Tail(attempts: seq<Attempt>): seq<byte> {
    if attempts == [] then []
    else
      var last := attempts[|attempts| - 1];
      if last.written == 0 then Tail(attempts[..|attempts| - 1])
      else if Whole(last) then []
      else Front(last)
  }

  /** No bytes follow a cut frame. */
  ghost predicate NothingAfterCut(attempts: seq<Attempt>) {
    forall i, j :: 0 <= i < j < |attempts| && Cut(attempts[i]) ==> attempts[j].written == 0
  }

  /** The bytes of cut frames. */
  function CutBytes(attempts: seq<Attempt>): nat {
    if attempts == [] then 0
    else
      var last := attempts[|attempts| - 1];
      CutBytes(attempts[..|attempts| - 1]) + if Cut(last) then last.written else 0
  }

  lemma {:induction false} NoCutBytes(attempts: seq<Attempt>, i: nat)
    requires i < |attempts| && Cut(attempts[i])
    ensures CutBytes(attempts) > 0
  {
    if i < |attempts| - 1 {
      NoCutBytes(attempts[..|attempts| - 1], i);
    }
  }

  lemma FramedAppend(payloads: seq<seq<byte>>, payload: seq<byte>)
    ensures Framed(payloads + [payload]) == Framed(payloads) + Frame(payload)
  {
    FramedConcat(payloads, [payload]);
    assert Framed([payload]) == Frame(payload) + [];
  }

  /** Frames and cut frames together are all the bytes there are. */
  lemma {:induction false} BytesAddUp(attempts: seq<Attempt>)
    requires AllSound(attempts)
    ensures |Stream(attempts)| == |Framed(Delivered(attempts))| + CutBytes(attempts)
  {
    if attempts != [] {
      var before, last := attempts[..|attempts| - 1], attempts[|attempts| - 1];
      BytesAddUp(before);
      if Whole(last) {
        FramedAppend(Delivered(before), last.payload);
      }
    }
  }

  lemma {:induction false} TailIsCut(attempts: seq<Attempt>)
    requires AllSound(attempts) && Tail(attempts) != []
    ensures exists i :: 0 <= i < |attempts| && Cut(attempts[i])
  {
    var before, last := attempts[..|attempts| - 1], attempts[|attempts| - 1];
    if last.written == 0 {
      TailIsCut(before);
      var i :| 0 <= i < |before| && Cut(before[i]);
      assert Cut(attempts[i]);
    } else {
      assert Cut(attempts[|attempts| - 1]);
    }
  }

  /** As long as nothing follows a cut frame, the stream is whole frames and the cut one. */
  lemma {:induction false} CleanStream(attempts: seq<Attempt>)
    requires AllSound(attempts) && NothingAfterCut(attempts)
    ensures Stream(attempts) == Framed(Delivered(attempts)) + Tail(attempts)
  {
    if attempts != [] {
      var before, last := attempts[..|attempts| - 1], attempts[|attempts| - 1];
      CleanStream(before);
      if last.written > 0 {
        NoTailBefore(attempts);
      }
      assert Sound(last);
      CleanStep(attempts);
    }
  }

  lemma CleanStep(attempts: seq<Attempt>)
    requires attempts != [] && Sound(attempts[|attempts| - 1])
    requires var before := attempts[..|attempts| - 1];
             && Stream(before) == Framed(Delivered(before)) + Tail(before)
             && (attempts[|attempts| - 1].written > 0 ==> Tail(before) == [])
    ensures Stream(attempts) == Framed(Delivered(attempts)) + Tail(attempts)
  {
    var before, last := attempts[..|attempts| - 1], attempts[|attempts| - 1];
    var frames := Framed(Delivered(before));
    assert Stream(attempts) == Stream(before) + Front(last);
    if last.written == 0 {
      assert Front(last) == [] && Tail(attempts) == Tail(before) && Delivered(attempts) == Delivered(before);
      NothingAppended(Stream(before));
    } else {
      NothingAppended(frames);
      assert Stream(attempts) == frames + Front(last);
      if Whole(last) {
        FramedAppend(Delivered(before), last.payload);
        assert Front(last) == Frame(last.payload) && Tail(attempts) == [];
        NothingAppended(frames + Front(last));
      } else {
        assert Delivered(attempts) == Delivered(before) && Tail(attempts) == Front(last);
      }
    }
  }

  lemma NothingAppended(bytes: seq<byte>)
    ensures bytes + [] == bytes
  {
  }

  lemma Associative(a: seq<byte>, b: seq<byte>, c: seq<byte>)
    ensures a + b + c == a + (b + c)
  {
  }

  lemma NoTailBefore(attempts: seq<Attempt>)
    requires AllSound(attempts) && NothingAfterCut(attempts)
    requires attempts != [] && attempts[|attempts| - 1].written > 0
    ensures Tail(attempts[..|attempts| - 1]) == []
  {
    var before := attempts[..|attempts| - 1];
    forall i | 0 <= i < |before|
      ensures !Cut(before[i])
    {
      assert before[i] == attempts[i];
    }
    if Tail(before) != [] {
      TailIsCut(before);
      assert false;
    }
  }

  /** When the bytes of cut frames are no more than the last one's, nothing follows it. */
  lemma {:induction false} OnlyTailIsCut(attempts: seq<Attempt>)
    requires AllSound(attempts) && CutBytes(attempts) == |Tail(attempts)|
    ensures NothingAfterCut(attempts)
  {
    if attempts != [] {
      var before, last := attempts[..|attempts| - 1], attempts[|attempts| - 1];
      if last.written == 0 {
        OnlyTailIsCut(before);
      }
      forall i, j | 0 <= i < j < |attempts| && Cut(attempts[i])
        ensures attempts[j].written == 0
      {
        assert before[i] == attempts[i];
        NoCutBytes(before, i);
        assert last.written == 0;
        assert j < |before| ==> before[j] == attempts[j];
      }
    }
  }

  /** The stream is the frames of the payloads sent whole, and at most one cut frame behind them, exactly if no
      bytes follow a cut frame. The code does not see to that: the lock is free after a failed write. */
  lemma StreamIsFramedIff(programs: Programs, steps: seq<Step>, w: Wire)
    requires Reaches(programs, Start(programs), steps, w)
    ensures w.outgoing == Framed(Delivered(Attempts(w))) + Tail(Attempts(w)) <==> NothingAfterCut(Attempts(w))
  {
    WireHoldsAttempts(programs, steps, w);
    if NothingAfterCut(Attempts(w)) {
      CleanStream(Attempts(w));
    } else if w.outgoing == Framed(Delivered(Attempts(w))) + Tail(Attempts(w)) {
      BytesAddUp(Attempts(w));
      OnlyTailIsCut(Attempts(w));
    }
  }

  lemma {:induction false} TailIsNotRead(attempts: seq<Attempt>)
    requires AllSound(attempts)
    ensures Messages(Tail(attempts)) == []
  {
    if attempts != [] {
      var last := attempts[|attempts| - 1];
      if last.written == 0 {
        TailIsNotRead(attempts[..|attempts| - 1]);
      } else if !Whole(last) {
        CutFrameIsNotRead(last.payload, last.written);
      }
    }
  }

  lemma {:induction false} DeliveredIsAcceptable(attempts: seq<Attempt>)
    requires AllSound(attempts)
    ensures AllAcceptable(Delivered(attempts))
  {
    if attempts != [] {
      DeliveredIsAcceptable(attempts[..|attempts| - 1]);
    }
  }

  /** Then a reader finds, at any time, exactly the payloads sent whole, in lock order. */
  lemma ReaderFindsDelivered(programs: Programs, steps: seq<Step>, w: Wire)
    requires Reaches(programs, Start(programs), steps, w) && NothingAfterCut(Attempts(w))
    ensures Messages(w.outgoing) == Delivered(Attempts(w))
  {
    WireHoldsAttempts(programs, steps, w);
    CleanStream(Attempts(w));
    DeliveredIsAcceptable(Attempts(w));
    FramesAreRead(Delivered(Attempts(w)), Tail(Attempts(w)));
    TailIsNotRead(Attempts(w));
    assert Delivered(Attempts(w)) + [] == Delivered(Attempts(w));
  }

  /** The payloads of one sender among those sent whole. */
  lemma {:induction false} WholeAttemptsDeliver(attempts: seq<Attempt>)
    requires forall i :: 0 <= i < |attempts| ==> Whole(attempts[i])
    ensures |Delivered(attempts)| == |attempts|
    ensures forall i :: 0 <= i < |attempts| ==> Delivered(attempts)[i] == attempts[i].payload
  {
    if attempts != [] {
      WholeAttemptsDeliver(attempts[..|attempts| - 1]);
    }
  }

  /** When no write failed and the lock is free, the reader gets the payload of every attempt once, in lock order,
      and the attempts of a sender that is through are all its acceptable payloads, in its own order. */
  lemma AllArriveInOrder(programs: Programs, steps: seq<Step>, w: Wire, sender: nat)
    requires Reaches(programs, Start(programs), steps, w) && w.lock.None?
    requires forall i :: 0 <= i < |w.ended| ==> Whole(w.ended[i])
    requires sender < |programs| == |w.next| && w.next[sender] == |programs[sender]|
    ensures |Messages(w.outgoing)| == |w.ended|
    ensures forall i :: 0 <= i < |w.ended| ==> Messages(w.outgoing)[i] == w.ended[i].payload
    ensures PayloadsOf(w.ended, sender) == Accepted(programs[sender])
  {
    WireHoldsAttempts(programs, steps, w);
    ReaderFindsDelivered(programs, steps, w);
    WholeAttemptsDeliver(w.ended);
    assert InOrder(programs, w, sender);
    assert programs[sender][..w.next[sender]] == programs[sender];
  }

  // ---------------------------------------------------------------------------------------------
  // A write after a failed one
  // ---------------------------------------------------------------------------------------------

  lemma StepThen(programs: Programs, from: Wire, step: Step, rest: seq<Step>, to: Wire) returns (steps: seq<Step>)
    requires Enabled(programs, from, step) && Reaches(programs, Next(programs, from, step), rest, to)
    ensures steps == [step] + rest && Reaches(programs, from, steps, to)
  {
    steps := [step] + rest;
    assert steps[1..] == rest;
  }

  lemma {:induction false} ReachesConcat(programs: Programs, from: Wire, a: seq<Step>, mid: Wire, b: seq<Step>,
                                         to: Wire)
    requires Reaches(programs, from, a, mid) && Reaches(programs, mid, b, to)
    ensures Reaches(programs, from, a + b, to)
    decreases |a|
  {
    if a == [] {
      assert a + b == b;
    } else {
      ReachesConcat(programs, Next(programs, from, a[0]), a[1..], mid, b, to);
      assert (a + b)[1..] == a[1..] + b;
    }
  }

  /** The bytes that a send leaves are left by the steps of its sender: first the header, then the payload. */
  lemma SendIsRun(programs: Programs, w: Wire, sender: nat, written: nat) returns (steps: seq<Step>, after: Wire)
    requires w.lock.None? && sender < |programs| == |w.next| && w.next[sender] < |programs[sender]|
    requires Acceptable(|programs[sender][w.next[sender]]|) && written <= |Frame(programs[sender][w.next[sender]])|
    ensures Reaches(programs, w, steps, after)
    ensures var payload := programs[sender][w.next[sender]];
            && after.outgoing == w.outgoing + Frame(payload)[..written] && after.lock.None?
            && after.next == w.next[sender := w.next[sender] + 1]
            && after.ended == w.ended + [Attempt(sender, payload, written)]
  {
    var payload := programs[sender][w.next[sender]];
    var begun := Next(programs, w, Begin(sender));
    var header := if written < HEADER_BYTES then written else HEADER_BYTES;
    var w1 := if header == 0 then begun else Next(programs, begun, Write(header));
    var w2 := if written == header then w1 else Next(programs, w1, Write(written - header));
    var last := if written == |Frame(payload)| then Finish else Fail;
    after := Next(programs, w2, last);
    assert Frame(payload)[..written] == Frame(payload)[..header] + Frame(payload)[header..written];
    assert w.outgoing + Frame(payload)[0..header] + Frame(payload)[header..written]
        == w.outgoing + Frame(payload)[..written];
    steps := StepThen(programs, w2, last, [], after);
    if written != header {
      steps := StepThen(programs, w1, Write(written - header), steps, after);
    }
    if header != 0 {
      steps := StepThen(programs, begun, Write(header), steps, after);
    }
    steps := StepThen(programs, w, Begin(sender), steps, after);
  }

  /** Two senders with one byte each. */
  const TWO_SENDERS: Programs := [[[7]], [[2]]]

  /** What it comes to when a write fails behind a header and the next sender writes on: the reader takes the first
      byte of the second header for the message, which nobody sent. */
  lemma ReaderMisreads() returns (steps: seq<Step>, w: Wire)
    ensures Reaches(TWO_SENDERS, Start(TWO_SENDERS), steps, w)
    ensures Delivered(Attempts(w)) == [[2]] && Messages(w.outgoing) == [[1]]
  {
    var s1, w1 := SendIsRun(TWO_SENDERS, Start(TWO_SENDERS), 0, HEADER_BYTES);
    assert Frame([2]) == [1, 0, 0, 0, 2];
    var s2, w2 := SendIsRun(TWO_SENDERS, w1, 1, 5);
    ReachesConcat(TWO_SENDERS, Start(TWO_SENDERS), s1, w1, s2, w2);
    steps, w := s1 + s2, w2;
    assert Frame([7])[..HEADER_BYTES] == [1, 0, 0, 0];
    assert w.outgoing == [1, 0, 0, 0, 1, 0, 0, 0, 2];
    assert Attempts(w) == [Attempt(0, [7], HEADER_BYTES), Attempt(1, [2], 5)];
    MisreadBytes();
    MisreadAttempts();
  }

  lemma MisreadAttempts()
    ensures Delivered([Attempt(0, [7], HEADER_BYTES), Attempt(1, [2], 5)]) == [[2]]
  {
    var attempts := [Attempt(0, [7], HEADER_BYTES), Attempt(1, [2], 5)];
    assert attempts[..1][..0] == [] && attempts[..1] == [attempts[0]];
    assert Delivered(attempts[..1]) == [];
  }

  lemma MisreadBytes()
    ensures Messages([1, 0, 0, 0, 1, 0, 0, 0, 2]) == [[1]]
  {
    var stream: seq<byte> := [1, 0, 0, 0, 1, 0, 0, 0, 2];
    assert stream[..HEADER_BYTES] == [1, 0, 0, 0] && stream[HEADER_BYTES..HEADER_BYTES + 1] == [1];
    var rest: seq<byte> := [0, 0, 0, 2];
    assert stream[HEADER_BYTES + 1..] == rest && rest[..HEADER_BYTES] == rest;
    assert Messages(rest) == [];
  }

  // ---------------------------------------------------------------------------------------------
  // The code
  // ---------------------------------------------------------------------------------------------

  /** A send of the code under the lock is a run of the senders' steps, whatever parts its writes come in. */
  method SendFrom(pipe: Pipe, payload: seq<byte>, ghost programs: Programs, ghost w: Wire, ghost sender: nat)
    returns (ok: bool, ghost steps: seq<Step>, ghost after: Wire)
    requires w.lock.None? && sender < |programs| == |w.next| && w.next[sender] < |programs[sender]|
    requires payload == programs[sender][w.next[sender]] && pipe.outgoing == w.outgoing
    modifies pipe`calls, pipe`outgoing
    ensures Reaches(programs, w, steps, after) && pipe.outgoing == after.outgoing && after.lock.None?
    ensures if Acceptable(|payload|) then
              exists written ::
                && after.ended == w.ended + [Attempt(sender, payload, written)]
                && (ok <==> Whole(Attempt(sender, payload, written)))
            else !ok && after.ended == w.ended
  {
    ok := pipe.Send(payload);
    if Acceptable(|payload|) {
      ghost var written := |pipe.outgoing| - |w.outgoing|;
      assert pipe.outgoing == w.outgoing + Frame(payload)[..written];
      assert ok <==> written == |Frame(payload)|;
      steps, after := SendIsRun(programs, w, sender, written);
    } else {
      after := Next(programs, w, Begin(sender));
      steps := StepThen(programs, w, Begin(sender), [], after);
    }
  }

  /** The reading loop at the other end hands on what was sent whole, in lock order, as long as nothing follows a
      cut frame; all of it unless a read fails. */
  method Receive(receiver: Pipe, ghost programs: Programs, ghost steps: seq<Step>, ghost w: Wire)
    returns (handled: seq<seq<byte>>)
    requires Reaches(programs, Start(programs), steps, w) && receiver.incoming == w.outgoing
    modifies receiver`calls, receiver`incoming
    ensures NothingAfterCut(Attempts(w)) ==> handled <= Delivered(Attempts(w))
    ensures NothingAfterCut(Attempts(w)) && receiver.Healthy() ==> handled == Delivered(Attempts(w))
  {
    if NothingAfterCut(Attempts(w)) {
      ReaderFindsDelivered(programs, steps, w);
    }
    handled := receiver.HandleConnection(_ => true);
  }
}
