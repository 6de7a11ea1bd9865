/** A fixed-buffer pump: bytes arrive in any chunks, whole frames are handed to a controller one by one. */
module FramePump {
  import opened Wrappers
  import opened Framing
  import opened PumpRuns

  datatype InputOverflow = InputOverflow(capacity: nat, needed: nat)

  datatype StepError<+E> =
    | OutputPending(len: nat)
    | OutputFrameTooSmall(needed: nat, capacity: nat)
    | OutputPayloadTooLarge(max: nat, got: nat)
    | Controller(error: E)

  datatype Status = Waiting(buffered: nat) | CommandReady(written: nat)

  /** The reply goes behind its prefix, then the prefix is written. */
  method WriteCommand(reply: seq<Byte>, output: array<Byte>)
    requires |reply| < LIMIT && PREFIX + |reply| <= output.Length
    modifies output
    ensures output[..PREFIX + |reply|] == Framed(reply)
  {
    CopyFrom(reply, output, PREFIX);
    ghost var tail := output[PREFIX..];
    CopyFrom(LittleEndian(|reply|), output, 0);
    assert output[PREFIX..] == tail && tail[..|reply|] == reply;
    assert output[..PREFIX + |reply|] == output[..PREFIX] + output[PREFIX..][..|reply|];
  }

  /** Why a reply cannot become a command: the controller failed, or its framed reply does not fit. */
  function ReplyFault<E>(reply: Result<seq<Byte>, E>, capacity: nat): Option<StepError<E>> {
    match reply
    case Err(error) => Some(Controller(error))
    case Ok(command) =>
      if PREFIX + |command| > capacity then Some(OutputFrameTooSmall(PREFIX + |command|, capacity))
      else if |command| >= LIMIT then Some(OutputPayloadTooLarge(LIMIT - 1, |command|))
      else None
  }

  class Pump {
    const input: array<Byte>
    var inputLen: nat
    const output: array<Byte>
    var outputLen: nat
    /** Chunks that arrived and payloads offered to the controller, since construction or the last clear. */
    ghost var events: seq<Event>

    /** The run of those events is what the input buffer reflects. */
    ghost predicate Valid()
      reads this, input, output
    {
      && input != output && inputLen <= input.Length && outputLen <= output.Length
      && Now().buffered == input[..inputLen]
    }

    ghost function Now(): State
      reads this
    {
      Run(events, input.Length)
    }

    ghost function Buffered(): seq<Byte>
      reads this, input
      requires inputLen <= input.Length
    {
      input[..inputLen]
    }

    ghost function Pending(): seq<Byte>
      reads this, output
      requires outputLen <= output.Length
    {
      output[..outputLen]
    }

    constructor (inputCapacity: nat, outputCapacity: nat)
      ensures Valid() && fresh(input) && fresh(output)
      ensures input.Length == inputCapacity && output.Length == outputCapacity
      ensures Buffered() == [] && Pending() == [] && events == []
    {
      var i := new Byte[inputCapacity];
      var o := new Byte[outputCapacity];
      input, output, inputLen, outputLen := i, o, 0, 0;
      events := [];
      new;
    }

    method Clear()
      requires Valid()
      modifies this
      ensures Valid() && Buffered() == [] && Pending() == [] && events == []
    {
      inputLen, outputLen := 0, 0;
      events := [];
    }

    /** Appends a chunk, or refuses it whole when the buffer cannot hold it. */
    method Ingest(bytes: seq<Byte>) returns (r: Result<nat, InputOverflow>)
      requires Valid()
      modifies this, input
      ensures Valid() && events == old(events) + [Arrive(bytes)]
      ensures outputLen == old(outputLen) && Pending() == old(Pending())
      ensures r.Ok? <==> old(inputLen) + |bytes| <= input.Length
      ensures r.Ok? ==> r.value == inputLen && Buffered() == old(Buffered()) + bytes
      ensures r.Err? ==>
                r.error == InputOverflow(input.Length, old(inputLen) + |bytes|) && Buffered() == old(Buffered())
    {
      hide Run, Deframe;
      RunStep(events, Arrive(bytes), input.Length);
      events := events + [Arrive(bytes)];
      var needed := inputLen + |bytes|;
      if needed > input.Length {
        return Err(InputOverflow(input.Length, needed));
      }
      ghost var before := Buffered();
      CopyFrom(bytes, input, inputLen);
      inputLen := needed;
      assert Buffered() == before + bytes;
      return Ok(inputLen);
    }

    method OutputFrame() returns (frame: Option<seq<Byte>>)
      requires Valid()
      ensures frame == if Pending() == [] then None else Some(Pending())
    {
      return if outputLen == 0 then None else Some(output[..outputLen]);
    }

    method ClearOutputFrame()
      requires Valid()
      modifies this`outputLen
      ensures Valid() && Pending() == [] && Buffered() == old(Buffered())
    {
      outputLen := 0;
    }

    lemma InBounds()
      requires Valid()
      ensures inputLen <= input.Length && outputLen <= output.Length && input != output
      ensures Now().buffered == Buffered()
    {
    }

    /** The controller saw the front payload and did not answer with a command that fits. */
    ghost method Refuse(frame: Frame)
      requires Valid() && Deframe(Buffered()) == Ok(frame)
      modifies this`events
      ensures Valid() && events == old(events) + [Offer(false)] && Now().delivered == old(Now().delivered)
      ensures Buffered() == old(Buffered()) && Pending() == old(Pending())
      ensures Now().offers == old(Now().offers) + [Offering(frame.payload, false)]
    {
      hide Run, Deframe;
      RunStep(events, Offer(false), input.Length);
      events := events + [Offer(false)];
    }

    /** Consumes the front frame: the command is stored, the rest of the input moves to the front. */
    method Deliver(frame: Frame, reply: seq<Byte>)
      requires Valid() && Deframe(Buffered()) == Ok(frame) && |reply| < LIMIT && PREFIX + |reply| <= output.Length
      modifies this, input, output
      ensures Valid() && events == old(events) + [Offer(true)]
      ensures Now().offers == old(Now().offers) + [Offering(frame.payload, true)]
      ensures Now().delivered == old(Now().delivered) + [frame.payload]
      ensures Buffered() == old(Buffered())[frame.consumed..]
      ensures outputLen == PREFIX + |reply| && Pending() == Framed(reply)
    {
      hide Framed, Deframe, Run;
      DeframeSplits(Buffered());
      RunStep(events, Offer(true), input.Length);
      WriteCommand(reply, output);
      var remaining := inputLen - frame.consumed;
      CopyFrom(input[frame.consumed..inputLen], input, 0);
      inputLen := remaining;
      outputLen := PREFIX + |reply|;
      events := events + [Offer(true)];
    }

    /** What became of a reply to the front payload: the command is stored and the frame consumed, or neither. */
    method Settle<E>(frame: Frame, reply: Result<seq<Byte>, E>) returns (r: Result<Status, StepError<E>>)
      requires Valid() && outputLen == 0 && Deframe(Buffered()) == Ok(frame) && output.Length >= PREFIX
      modifies this, input, output
      ensures Valid() && events == old(events) + [Offer(ReplyFault(reply, output.Length).None?)]
      ensures Now().offers
              == old(Now().offers) + [Offering(frame.payload, ReplyFault(reply, output.Length).None?)]
      ensures ReplyFault(reply, output.Length).None? ==>
                r == Ok(CommandReady(PREFIX + |reply.value|)) && Pending() == Framed(reply.value)
                && Buffered() == old(Buffered())[frame.consumed..]
                && Now().delivered == old(Now().delivered) + [frame.payload]
      ensures ReplyFault(reply, output.Length).Some? ==>
                r == Err(ReplyFault(reply, output.Length).value) && Pending() == [] && Buffered() == old(Buffered())
                && Now().delivered == old(Now().delivered)
    {
      hide Framed, Deframe, Run, Valid, Now, Buffered;
      InBounds();
      var fault := ReplyFault(reply, output.Length);
      if fault.Some? {
        Refuse(frame);
        return Err(fault.value);
      }
      Deliver(frame, reply.value);
      return Ok(CommandReady(outputLen));
    }

    /**
     * One step. While a command is pending nothing happens; without a whole frame it waits; otherwise the
     * controller is offered exactly the payload at the front. Only when it replies with a command that fits is
     * the frame consumed, the rest of the input moved to the front, and the framed command made pending.
     */
    method TryStep<C, E>(fc: (C, seq<Byte>) -> (C, Result<seq<Byte>, E>), controller: C)
      returns (r: Result<Status, StepError<E>>, next: C)
      requires Valid()
      modifies this, input, output
      ensures Valid()
      ensures old(outputLen) != 0 ==>
                r == Err(OutputPending(old(outputLen))) && Pending() == old(Pending())
      ensures old(outputLen) == 0 && Deframe(old(Buffered())).Err? ==>
                r == Ok(Waiting(old(inputLen))) && Pending() == []
      ensures old(outputLen) == 0 && Deframe(old(Buffered())).Ok? && output.Length < PREFIX ==>
                r == Err(OutputFrameTooSmall(PREFIX, output.Length)) && Pending() == []
      ensures !old(Offers()) ==> events == old(events) && next == controller
      ensures old(Offers()) ==>
                var f := Deframe(old(Buffered())).value;
                var reply := fc(controller, f.payload);
                var fault := ReplyFault(reply.1, output.Length);
                && next == reply.0 && events == old(events) + [Offer(fault.None?)]
                && Now().offers == old(Now().offers) + [Offering(f.payload, fault.None?)]
                && (fault.None? ==>
                      r == Ok(CommandReady(PREFIX + |reply.1.value|)) && Pending() == Framed(reply.1.value)
                      && Buffered() == old(Buffered())[f.consumed..]
                      && Now().delivered == old(Now().delivered) + [f.payload])
                && (fault.Some? ==>
                      r == Err(fault.value) && Pending() == [] && Now().delivered == old(Now().delivered))
      ensures !(r.Ok? && r.value.CommandReady?) ==> Buffered() == old(Buffered())
    {
      hide Framed, Deframe, Run, Valid, Now, ReplyFault;
      InBounds();
      next := controller;
      if outputLen != 0 {
        return Err(OutputPending(outputLen)), next;
      }
      var frame := Deframe(input[..inputLen]);
      if frame.Err? {
        return Ok(Waiting(inputLen)), next;
      }
      if output.Length < PREFIX {
        return Err(OutputFrameTooSmall(PREFIX, output.Length)), next;
      }
      var step := fc(controller, frame.value.payload);
      next := step.0;
      r := Settle(frame.value, step.1);
    }

    /** A step would call the controller: nothing is pending, a whole frame is there, and room for a prefix. */
    ghost predicate Offers()
      reads this, input
      requires inputLen <= input.Length
    {
      outputLen == 0 && Deframe(Buffered()).Ok? && output.Length >= PREFIX
    }
  }

  // ---------------------------------------------------------------- a pump at any moment of any run

  /**
   * What the pump consumed is a prefix of what was sent, all of it exactly when the pump waits with nothing
   * more to come, and never a frame that exceeds its buffer.
   */
  lemma PumpDelivers(p: Pump, sent: seq<seq<Byte>>, tail: seq<Byte>)
    requires p.Valid() && AllFit(sent) && Deframe(tail).Err? && p.Now().received == Stream(sent) + tail
    ensures p.Now().delivered <= sent && (Deframe(p.Buffered()).Err? <==> p.Now().delivered == sent)
    ensures forall i :: 0 <= i < |sent| && PREFIX + |sent[i]| > p.input.Length ==> |p.Now().delivered| <= i
  {
    hide Framed, Deframe, Stream, Run;
    var s := p.Now();
    RunKeeps(p.events, p.input.Length);
    ConsumedInOrder(s.delivered, s.buffered, sent, tail);
    assert forall k :: 0 <= k < |s.delivered| ==> s.delivered[k] == sent[k];
  }

  /** In the middle of a stream, a pump that waits for a frame that fits has room for all of that frame. */
  lemma WaitingHasRoom(p: Pump, sent: seq<seq<Byte>>, more: seq<Byte>)
    requires p.Valid() && Sending(p.Now(), sent, more) && p.Now().delivered < sent && Deframe(p.Buffered()).Err?
    requires PREFIX + |sent[|p.Now().delivered|]| <= p.input.Length
    ensures p.Buffered() < Framed(sent[|p.Now().delivered|])
    ensures |Framed(sent[|p.Now().delivered|])| <= p.input.Length
  {
    hide Framed, Deframe, Stream, Run;
    RoomForNext(p.events, p.input.Length, sent, more);
  }

  /**
   * The controller may see a payload many times: once for every refusal, all in a row, and then once more when
   * it accepts. Without those repeats it saw what was consumed, and a refused payload is the next it will see.
   */
  lemma RefusedIsOfferedAgain(p: Pump)
    requires p.Valid()
    ensures var offers := p.Now().offers;
            && InOrder(offers) && AcceptedPayloads(offers) == p.Now().delivered
            && (|offers| > 0 && !offers[|offers| - 1].accepted ==>
                  Deframe(p.Buffered()).Ok? && Deframe(p.Buffered()).value.payload == offers[|offers| - 1].payload)
  {
    hide Deframe, Run, InOrder, AcceptedPayloads;
    RunKeeps(p.events, p.input.Length);
  }
}
