/** Length-prefixed framing of byte payloads for stream transports. */
module Framing {
  import opened Wrappers

  newtype Byte = x: int | 0 <= x < 256

  const PREFIX := 4
  const LIMIT := 0x1_0000_0000

  datatype FrameError =
    | PayloadTooLarge(max: int, got: nat)
    | PrefixIncomplete(have: nat)
    | FrameTruncated(needed: nat, have: nat)

  /** One payload and the number of bytes it took. */
  datatype Frame = Frame(payload: seq<Byte>, consumed: nat)

  // ---------------------------------------------------------------- the length prefix

  function LittleEndian(n: nat): (r: seq<Byte>)
    requires n < LIMIT
    ensures |r| == PREFIX
  {
    [(n % 256) as Byte, (n / 256 % 256) as Byte, (n / 256 / 256 % 256) as Byte, (n / 256 / 256 / 256) as Byte]
  }

  function FromLittleEndian(b: seq<Byte>): (n: nat)
    requires |b| == PREFIX
    ensures n < LIMIT
  {
    b[0] as nat + 256 * (b[1] as nat + 256 * (b[2] as nat + 256 * (b[3] as nat)))
  }

  lemma LowDigit(digit: nat, rest: nat)
    requires digit < 256
    ensures (digit + 256 * rest) % 256 == digit && (digit + 256 * rest) / 256 == rest
  {
  }

  /** Prefix and number determine each other. */
  lemma PrefixRoundTrip(n: nat, b: seq<Byte>)
    requires n < LIMIT && |b| == PREFIX
    ensures FromLittleEndian(LittleEndian(n)) == n
    ensures LittleEndian(FromLittleEndian(b)) == b
  {
    var q := n / 256;
    assert n == n % 256 + 256 * q && q == q % 256 + 256 * (q / 256);
    var high := b[2] as nat + 256 * (b[3] as nat);
    LowDigit(b[0] as nat, b[1] as nat + 256 * high);
    LowDigit(b[1] as nat, high);
    LowDigit(b[2] as nat, b[3] as nat);
  }

  /** The first byte is the least significant, and each counts 256 times the one before. */
  lemma LeastSignificantFirst(n: nat)
    requires n < LIMIT
    ensures var b := LittleEndian(n);
            n == b[0] as nat + 0x100 * b[1] as nat + 0x1_0000 * b[2] as nat + 0x100_0000 * b[3] as nat
  {
    PrefixRoundTrip(n, LittleEndian(n));
  }

  // ---------------------------------------------------------------- framing

  /** The length that is written: too long a payload is announced with the largest one. */
  function AnnouncedLength(payload: seq<Byte>): (n: nat)
    ensures n < LIMIT
  {
    if |payload| < LIMIT then |payload| else LIMIT - 1
  }

  function Framed(payload: seq<Byte>): seq<Byte> {
    LittleEndian(AnnouncedLength(payload)) + payload
  }

  /** A frame is a prefix and then the payload; a payload beyond the prefix is announced by four bytes of 255. */
  lemma FrameLayout(payload: seq<Byte>)
    ensures |Framed(payload)| == PREFIX + |payload| && Framed(payload)[PREFIX..] == payload
    ensures |payload| < LIMIT ==> Framed(payload)[..PREFIX] == LittleEndian(|payload|)
    ensures |payload| >= LIMIT ==> Framed(payload)[..PREFIX] == [255, 255, 255, 255]
  {
  }

  method FrameVector(payload: seq<Byte>) returns (framed: seq<Byte>)
    ensures framed == Framed(payload)
  {
    var len := if |payload| < LIMIT then |payload| else LIMIT - 1;
    framed := [];
    framed := framed + LittleEndian(len);
    framed := framed + payload;
  }

  /**
   * Writes exactly the bytes of the frame at the front of the buffer and leaves the rest alone. A payload
   * beyond the prefix, or beyond the buffer, is refused with the buffer untouched.
   */
  method FrameInto(payload: seq<Byte>, output: array<Byte>) returns (r: Result<nat, FrameError>)
    modifies output
    ensures r.Ok? <==> |payload| < LIMIT && PREFIX + |payload| <= output.Length
    ensures r.Ok? ==> r.value == |Framed(payload)| && output[..r.value] == Framed(payload)
                      && output[r.value..] == old(output[r.value..])
    ensures r.Err? ==> output[..] == old(output[..])
    ensures r.Err? ==> r.error == PayloadTooLarge(if |payload| >= LIMIT then LIMIT - 1
                                                  else if output.Length < PREFIX then 0
                                                  else output.Length - PREFIX, |payload|)
  {
    if |payload| >= LIMIT {
      return Err(PayloadTooLarge(LIMIT - 1, |payload|));
    }
    var needed := PREFIX + |payload|;
    if output.Length < needed {
      return Err(PayloadTooLarge(if output.Length < PREFIX then 0 else output.Length - PREFIX, |payload|));
    }
    var prefix := LittleEndian(|payload|);
    ghost var rest := output[needed..];
    CopyFrom(prefix, output, 0);
    assert output[needed..] == rest by {
      assert output[PREFIX..][|payload|..] == output[needed..];
    }
    CopyFrom(payload, output, PREFIX);
    assert output[..PREFIX] == prefix && output[PREFIX..needed] == payload;
    assert output[..needed] == output[..PREFIX] + output[PREFIX..needed];
    return Ok(needed);
  }

  method CopyFrom(source: seq<Byte>, target: array<Byte>, at: nat)
    requires at + |source| <= target.Length
    modifies target
    ensures target[at..at + |source|] == source
    ensures target[..at] == old(target[..at]) && target[at + |source|..] == old(target[at + |source|..])
  {
    for i := 0 to |source|
      invariant target[at..at + i] == source[..i]
      invariant target[..at] == old(target[..at]) && target[at + |source|..] == old(target[at + |source|..])
    {
      target[at + i] := source[i];
      assert target[at..at + i + 1] == target[at..at + i] + [source[i]];
    }
  }

  // ---------------------------------------------------------------- deframing

  function Deframe(buf: seq<Byte>): Result<Frame, FrameError> {
    if |buf| < PREFIX then Err(PrefixIncomplete(|buf|))
    else
      var len := FromLittleEndian(buf[..PREFIX]);
      if |buf| - PREFIX < len then Err(FrameTruncated(len, |buf| - PREFIX))
      else Ok(Frame(buf[PREFIX..PREFIX + len], PREFIX + len))
  }

  /** Deframing succeeds exactly on buffers that begin with the frame of what it returns. */
  lemma DeframeMeaning(buf: seq<Byte>, payload: seq<Byte>)
    ensures Deframe(buf) == Ok(Frame(payload, PREFIX + |payload|)) <==> |payload| < LIMIT && Framed(payload) <= buf
  {
    if Deframe(buf) == Ok(Frame(payload, PREFIX + |payload|)) {
      PrefixRoundTrip(0, buf[..PREFIX]);
      assert buf[..PREFIX + |payload|] == buf[..PREFIX] + buf[PREFIX..PREFIX + |payload|];
    }
    if |payload| < LIMIT && Framed(payload) <= buf {
      FramedFront(buf, payload);
    }
  }

  lemma FramedFront(buf: seq<Byte>, payload: seq<Byte>)
    requires |payload| < LIMIT && Framed(payload) <= buf
    ensures Deframe(buf) == Ok(Frame(payload, PREFIX + |payload|))
  {
    var prefix := LittleEndian(|payload|);
    PrefixRoundTrip(|payload|, prefix);
    assert buf[..PREFIX] == Framed(payload)[..PREFIX] == prefix;
    assert buf[PREFIX..PREFIX + |payload|] == Framed(payload)[PREFIX..] == payload;
  }

  /** One frame is read back whole exactly when its payload fits the prefix. */
  lemma FrameRoundTrip(payload: seq<Byte>)
    ensures Deframe(Framed(payload)) == Ok(Frame(payload, |Framed(payload)|)) <==> |payload| < LIMIT
  {
    DeframeMeaning(Framed(payload), payload);
  }

  /** Every proper prefix of a frame is refused, with the count of what is missing. */
  lemma ProperPrefixRefused(payload: seq<Byte>, k: nat)
    requires |payload| < LIMIT && k < |Framed(payload)|
    ensures Deframe(Framed(payload)[..k])
            == Err(if k < PREFIX then PrefixIncomplete(k) else FrameTruncated(|payload|, k - PREFIX))
  {
    if k >= PREFIX {
      PrefixRoundTrip(|payload|, LittleEndian(|payload|));
      assert Framed(payload)[..k][..PREFIX] == LittleEndian(|payload|);
    }
  }

  // ---------------------------------------------------------------- streams

  function Stream(payloads: seq<seq<Byte>>): seq<Byte> {
    if |payloads| == 0 then [] else Framed(payloads[0]) + Stream(payloads[1..])
  }

  predicate AllFit(payloads: seq<seq<Byte>>) {
    forall i :: 0 <= i < |payloads| ==> |payloads[i]| < LIMIT
  }

  lemma DeframeAdvances(buf: seq<Byte>)
    ensures Deframe(buf).Ok? ==> 0 < Deframe(buf).value.consumed <= |buf|
  {
  }

  datatype Drained = Drained(payloads: seq<seq<Byte>>, rest: seq<Byte>)

  /** What repeated deframing from the front of a buffer yields, and the bytes it could not use. */
  function Drain(buf: seq<Byte>): Drained
    decreases |buf|
  {
    var next := Deframe(buf);
    if next.Err? then Drained([], buf)
    else
      DeframeAdvances(buf);
      var more := Drain(buf[next.value.consumed..]);
      Drained([next.value.payload] + more.payloads, more.rest)
  }

  /** A successful deframing splits the buffer into that frame and what follows. */
  lemma DeframeSplits(buf: seq<Byte>)
    requires Deframe(buf).Ok?
    ensures var f := Deframe(buf).value;
            0 < f.consumed <= |buf| && |f.payload| < LIMIT && buf == Framed(f.payload) + buf[f.consumed..]
            && f.consumed == |Framed(f.payload)|
  {
    var f := Deframe(buf).value;
    DeframeMeaning(buf, f.payload);
    assert buf == Framed(f.payload) + buf[|Framed(f.payload)|..];
  }

  lemma DrainFrame(payload: seq<Byte>, rest: seq<Byte>)
    requires |payload| < LIMIT
    ensures Drain(Framed(payload) + rest) == Drained([payload] + Drain(rest).payloads, Drain(rest).rest)
  {
    hide Framed, Deframe;
    var buf := Framed(payload) + rest;
    DeframeMeaning(buf, payload);
    DeframeSplits(buf);
    assert buf[|Framed(payload)|..] == rest;
  }

  lemma NoFrames(rest: seq<Byte>)
    ensures Stream([]) + rest == rest
  {
    assert [] + rest == rest;
  }

  lemma FirstFrame(payloads: seq<seq<Byte>>, rest: seq<Byte>)
    requires |payloads| > 0
    ensures Stream(payloads) + rest == Framed(payloads[0]) + (Stream(payloads[1..]) + rest)
  {
    hide Framed;
  }

  /** Draining frames followed by anything yields those payloads first. */
  lemma {:induction false} DrainFrames(payloads: seq<seq<Byte>>, rest: seq<Byte>)
    requires AllFit(payloads)
    ensures Drain(Stream(payloads) + rest) == Drained(payloads + Drain(rest).payloads, Drain(rest).rest)
  {
    hide Framed, Deframe, Drain, Stream;
    var after := Drain(rest).payloads;
    if |payloads| == 0 {
      NoFrames(rest);
      assert payloads == [] && payloads + after == after;
    } else {
      FirstFrame(payloads, rest);
      DrainFrame(payloads[0], Stream(payloads[1..]) + rest);
      DrainFrames(payloads[1..], rest);
      assert [payloads[0]] + (payloads[1..] + after) == payloads + after;
    }
  }

  lemma DrainNothing(tail: seq<Byte>)
    ensures Deframe(tail).Err? <==> Drain(tail).payloads == []
    ensures Deframe(tail).Err? ==> Drain(tail) == Drained([], tail)
  {
  }

  /**
   * Streams of frames are read back exactly, however much of a next frame has already arrived: draining
   * yields the payloads in order and leaves precisely the incomplete tail.
   */
  lemma StreamRoundTrip(payloads: seq<seq<Byte>>, tail: seq<Byte>)
    requires AllFit(payloads) && Deframe(tail).Err?
    ensures Drain(Stream(payloads) + tail) == Drained(payloads, tail)
  {
    DrainFrames(payloads, tail);
    DrainNothing(tail);
    assert payloads + [] == payloads;
  }

  /** Conversely, whatever was drained is framed at the front of the buffer: nothing is invented or lost. */
  lemma {:induction false} DrainIsStream(buf: seq<Byte>)
    ensures var d := Drain(buf); AllFit(d.payloads) && buf == Stream(d.payloads) + d.rest && Deframe(d.rest).Err?
    decreases |buf|
  {
    hide Framed, Deframe, Drain, Stream;
    var next := Deframe(buf);
    if next.Ok? {
      DeframeSplits(buf);
      var p, tail := next.value.payload, buf[next.value.consumed..];
      DrainIsStream(tail);
      DrainFrame(p, tail);
      var all := [p] + Drain(tail).payloads;
      assert all[0] == p && all[1..] == Drain(tail).payloads;
      FirstFrame(all, Drain(tail).rest);
    } else {
      DrainNothing(buf);
      NoFrames(buf);
    }
  }

  /** The reading loop: a cursor advanced by what each frame consumed. */
  method DrainLoop(buf: seq<Byte>) returns (payloads: seq<seq<Byte>>, cursor: nat)
    ensures cursor <= |buf| && Drained(payloads, buf[cursor..]) == Drain(buf)
  {
    hide Framed, Deframe, Drain;
    payloads, cursor := [], 0;
    assert buf[0..] == buf && [] + Drain(buf).payloads == Drain(buf).payloads;
    var next := Deframe(buf[cursor..]);
    while next.Ok?
      invariant cursor <= |buf| && next == Deframe(buf[cursor..])
      invariant Drain(buf) == Drained(payloads + Drain(buf[cursor..]).payloads, Drain(buf[cursor..]).rest)
      decreases |buf| - cursor
    {
      DeframeSplits(buf[cursor..]);
      ghost var p, tail := next.value.payload, buf[cursor..][next.value.consumed..];
      DrainFrame(p, tail);
      assert tail == buf[cursor + next.value.consumed..];
      assert payloads + ([p] + Drain(tail).payloads) == payloads + [p] + Drain(tail).payloads;
      payloads := payloads + [next.value.payload];
      cursor := cursor + next.value.consumed;
      next := Deframe(buf[cursor..]);
    }
    DrainNothing(buf[cursor..]);
    assert payloads + [] == payloads;
  }

  /** Concatenated frames are uniquely decodable. */
  lemma UniquelyDecodable(a: seq<seq<Byte>>, b: seq<seq<Byte>>)
    requires AllFit(a) && AllFit(b) && Stream(a) == Stream(b)
    ensures a == b
  {
    StreamRoundTrip(a, []);
    StreamRoundTrip(b, []);
    assert Stream(a) + [] == Stream(b) + [];
  }
}
