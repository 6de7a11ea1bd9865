/** Runs of the frame pump as sequences of events: what arrived, what was consumed, what was offered. */
module PumpRuns {
  import opened Framing

  /** A chunk arrives; or the payload at the front is offered to the controller, which accepts it or not. */
  datatype Event = Arrive(bytes: seq<Byte>) | Offer(accepted: bool)

  datatype Offering = Offering(payload: seq<Byte>, accepted: bool)

  datatype State = State(received: seq<Byte>, delivered: seq<seq<Byte>>, buffered: seq<Byte>, offers: seq<Offering>)

  /** A chunk that does not fit is refused whole; only an accepted payload is consumed. */
  function Next(s: State, e: Event, capacity: nat): State {
    match e
    case Arrive(bytes) =>
      if |s.buffered| + |bytes| > capacity then s
      else s.(received := s.received + bytes, buffered := s.buffered + bytes)
    case Offer(accepted) =>
      var front := Deframe(s.buffered);
      if front.Err? then s
      else if !accepted then s.(offers := s.offers + [Offering(front.value.payload, false)])
      else
        DeframeAdvances(s.buffered);
        s.(delivered := s.delivered + [front.value.payload], buffered := s.buffered[front.value.consumed..],
           offers := s.offers + [Offering(front.value.payload, true)])
  }

  function Run(events: seq<Event>, capacity: nat): State {
    if |events| == 0 then State([], [], [], [])
    else Next(Run(events[..|events| - 1], capacity), events[|events| - 1], capacity)
  }

  lemma RunStep(events: seq<Event>, e: Event, capacity: nat)
    ensures Run(events + [e], capacity) == Next(Run(events, capacity), e, capacity)
  {
    assert (events + [e])[..|events|] == events;
  }

  // ---------------------------------------------------------------- what every run keeps

  /** Every payload's frame fits a buffer of the given capacity. */
  predicate AllWithin(payloads: seq<seq<Byte>>, capacity: nat) {
    forall i :: 0 <= i < |payloads| ==> PREFIX + |payloads[i]| <= capacity
  }

  function AcceptedPayloads(offers: seq<Offering>): seq<seq<Byte>> {
    if |offers| == 0 then []
    else
      var last := offers[|offers| - 1];
      AcceptedPayloads(offers[..|offers| - 1]) + if last.accepted then [last.payload] else []
  }

  /** After a refusal the same payload is offered again. */
  ghost predicate InOrder(offers: seq<Offering>) {
    forall i :: 0 < i < |offers| && !offers[i - 1].accepted ==> offers[i].payload == offers[i - 1].payload
  }

  /** Refused payloads are offered again, now or later; the accepted ones, in order, are those consumed. */
  ghost predicate Replays(s: State) {
    InOrder(s.offers) && FrontReplays(s.offers, s.buffered) && s.delivered == AcceptedPayloads(s.offers)
  }

  /** Received bytes are the frames consumed followed by the bytes still buffered. */
  ghost predicate Conserved(s: State, capacity: nat) {
    && |s.buffered| <= capacity && AllFit(s.delivered) && AllWithin(s.delivered, capacity)
    && s.received == Stream(s.delivered) + s.buffered
  }

  lemma {:induction false} StreamAppend(payloads: seq<seq<Byte>>, last: seq<Byte>)
    ensures Stream(payloads + [last]) == Stream(payloads) + Framed(last)
  {
    hide Framed;
    var all := payloads + [last];
    if |payloads| == 0 {
      assert all == [last] && [last][1..] == [];
      assert Framed(last) + [] == Framed(last) == [] + Framed(last);
    } else {
      assert all[1..] == payloads[1..] + [last];
      StreamAppend(payloads[1..], last);
      assert Framed(payloads[0]) + (Stream(payloads[1..]) + Framed(last)) == Stream(payloads) + Framed(last);
    }
  }

  /** Consuming the front frame moves it from the buffered bytes to the delivered ones. */
  lemma Consume(delivered: seq<seq<Byte>>, buffered: seq<Byte>)
    requires Deframe(buffered).Ok?
    ensures var f := Deframe(buffered).value;
            && f.consumed <= |buffered| && |f.payload| < LIMIT && PREFIX + |f.payload| <= |buffered|
            && Stream(delivered) + buffered == Stream(delivered + [f.payload]) + buffered[f.consumed..]
  {
    hide Framed, Stream;
    var f := Deframe(buffered).value;
    DeframeSplits(buffered);
    StreamAppend(delivered, f.payload);
    assert Stream(delivered) + (Framed(f.payload) + buffered[f.consumed..])
        == Stream(delivered) + Framed(f.payload) + buffered[f.consumed..];
  }

  /** More bytes behind a whole frame do not change it. */
  lemma FrontStays(buffered: seq<Byte>, bytes: seq<Byte>)
    requires Deframe(buffered).Ok?
    ensures Deframe(buffered + bytes) == Deframe(buffered)
  {
    var f := Deframe(buffered).value;
    DeframeMeaning(buffered, f.payload);
    DeframeMeaning(buffered + bytes, f.payload);
  }

  lemma NextConserves(s: State, e: Event, capacity: nat)
    requires Conserved(s, capacity)
    ensures Conserved(Next(s, e, capacity), capacity)
  {
    hide Framed, Deframe, Stream;
    match e
    case Arrive(bytes) =>
      assert Stream(s.delivered) + s.buffered + bytes == Stream(s.delivered) + (s.buffered + bytes);
    case Offer(accepted) =>
      if Deframe(s.buffered).Ok? {
        Consume(s.delivered, s.buffered);
      }
  }

  /** The payload refused last, if any, is still at the front. */
  ghost predicate FrontReplays(offers: seq<Offering>, buffered: seq<Byte>) {
    |offers| > 0 && !offers[|offers| - 1].accepted ==>
      Deframe(buffered).Ok? && Deframe(buffered).value.payload == offers[|offers| - 1].payload
  }

  lemma ArriveReplays(s: State, bytes: seq<Byte>)
    requires FrontReplays(s.offers, s.buffered)
    ensures FrontReplays(s.offers, s.buffered + bytes)
  {
    hide Deframe;
    if Deframe(s.buffered).Ok? {
      FrontStays(s.buffered, bytes);
    }
  }

  lemma OfferReplays(offers: seq<Offering>, buffered: seq<Byte>, offer: Offering)
    requires InOrder(offers) && FrontReplays(offers, buffered)
    requires Deframe(buffered).Ok? && offer.payload == Deframe(buffered).value.payload
    ensures InOrder(offers + [offer])
    ensures !offer.accepted ==> FrontReplays(offers + [offer], buffered)
    ensures AcceptedPayloads(offers + [offer])
            == AcceptedPayloads(offers) + if offer.accepted then [offer.payload] else []
  {
    hide Deframe;
    assert (offers + [offer])[..|offers|] == offers;
  }

  lemma NextReplays(s: State, e: Event, capacity: nat)
    requires Replays(s)
    ensures Replays(Next(s, e, capacity))
  {
    hide Deframe, FrontReplays, InOrder, AcceptedPayloads;
    match e
    case Arrive(bytes) =>
      ArriveReplays(s, bytes);
    case Offer(accepted) =>
      if Deframe(s.buffered).Ok? {
        var offer := Offering(Deframe(s.buffered).value.payload, accepted);
        OfferReplays(s.offers, s.buffered, offer);
        if accepted {
          AcceptedLast(s.offers, offer, Next(s, e, capacity).buffered);
        } else {
          assert s.delivered + [] == s.delivered;
        }
      }
  }

  lemma AcceptedLast(offers: seq<Offering>, offer: Offering, buffered: seq<Byte>)
    requires offer.accepted
    ensures FrontReplays(offers + [offer], buffered)
  {
  }

  /** Over every run: no byte is lost or repeated, and a refused payload is the next one offered. */
  lemma {:induction false} RunKeeps(events: seq<Event>, capacity: nat)
    ensures var s := Run(events, capacity);
            Conserved(s, capacity) && Replays(s)
  {
    if |events| == 0 {
      assert Stream([]) + [] == [];
    } else {
      hide Next, Conserved, Replays;
      var before := events[..|events| - 1];
      RunKeeps(before, capacity);
      NextConserves(Run(before, capacity), events[|events| - 1], capacity);
      NextReplays(Run(before, capacity), events[|events| - 1], capacity);
    }
  }

  // ---------------------------------------------------------------- against what was sent

  /**
   * However a stream is cut into chunks and interleaved with offers, the payloads consumed are the first
   * ones sent, in order; and what is buffered and still to come is exactly the rest of the stream.
   */
  lemma ConsumedInOrder(delivered: seq<seq<Byte>>, rest: seq<Byte>, sent: seq<seq<Byte>>, tail: seq<Byte>)
    requires AllFit(delivered) && AllFit(sent) && Deframe(tail).Err?
    requires Stream(delivered) + rest == Stream(sent) + tail
    ensures delivered <= sent && rest == Stream(sent[|delivered|..]) + tail
    ensures Deframe(rest).Err? <==> delivered == sent
  {
    hide Framed, Deframe, Stream;
    DrainFrames(delivered, rest);
    StreamRoundTrip(sent, tail);
    DrainIsStream(rest);
    var d := Drain(rest);
    assert delivered + d.payloads == sent && d.rest == tail;
    assert sent[|delivered|..] == d.payloads;
    DrainNothing(rest);
  }

  /** The run has received a part of the stream, and `more` is what is still to come. */
  ghost predicate Sending(s: State, sent: seq<seq<Byte>>, more: seq<Byte>) {
    AllFit(sent) && s.received + more == Stream(sent)
  }

  /** Before everything is consumed, a waiting state holds a proper beginning of the next frame sent. */
  lemma WaitingForNext(s: State, capacity: nat, sent: seq<seq<Byte>>, more: seq<Byte>)
    requires Conserved(s, capacity) && Sending(s, sent, more)
    ensures s.delivered <= sent
    ensures s.delivered != sent ==>
              |s.delivered| < |sent| && (Deframe(s.buffered).Err? <==> s.buffered < Framed(sent[|s.delivered|]))
  {
    hide Framed, Deframe, Stream;
    assert Stream(s.delivered) + s.buffered + more == Stream(s.delivered) + (s.buffered + more);
    assert Stream(sent) + [] == Stream(sent);
    EmptyWaits();
    ConsumedInOrder(s.delivered, s.buffered + more, sent, []);
    if s.delivered != sent {
      var k := |s.delivered|;
      assert sent[k..][0] == sent[k];
      FirstFrame(sent[k..], []);
      BeginsWith(s.buffered, more, sent[k], Stream(sent[k..][1..]) + []);
    }
  }

  lemma EmptyWaits()
    ensures Deframe([]).Err?
  {
  }

  /** A beginning of a frame and what follows deframes exactly when it holds the frame. */
  lemma BeginsWith(buffered: seq<Byte>, more: seq<Byte>, payload: seq<Byte>, rest: seq<Byte>)
    requires |payload| < LIMIT && buffered + more == Framed(payload) + rest
    ensures Deframe(buffered).Err? <==> buffered < Framed(payload)
  {
    hide Framed, Deframe;
    var all := buffered + more;
    if |buffered| < |Framed(payload)| {
      assert buffered == all[..|buffered|] == Framed(payload)[..|buffered|];
      ProperPrefixRefused(payload, |buffered|);
    } else {
      assert all[..|Framed(payload)|] == Framed(payload);
      assert Framed(payload) <= buffered;
      DeframeMeaning(buffered, payload);
    }
  }

  /** A waiting run whose next frame fits the buffer has room for all of that frame. */
  lemma RoomForNext(events: seq<Event>, capacity: nat, sent: seq<seq<Byte>>, more: seq<Byte>)
    requires var s := Run(events, capacity); Sending(s, sent, more) && s.delivered < sent && Deframe(s.buffered).Err?
    requires PREFIX + |sent[|Run(events, capacity).delivered|]| <= capacity
    ensures var s := Run(events, capacity);
            s.buffered < Framed(sent[|s.delivered|]) && |Framed(sent[|s.delivered|])| <= capacity
  {
    RunKeeps(events, capacity);
    WaitingForNext(Run(events, capacity), capacity, sent, more);
  }

  // ---------------------------------------------------------------- when a run can be stuck

  /** No event changes the state: every non-empty chunk is refused and there is nothing to offer. */
  ghost predicate Dead(s: State, capacity: nat) {
    forall e: Event :: Next(s, e, capacity) == s
  }

  lemma DeadIsFullAndWaiting(s: State, capacity: nat)
    requires |s.buffered| <= capacity
    ensures Dead(s, capacity) <==> Deframe(s.buffered).Err? && |s.buffered| == capacity
  {
    hide Deframe;
    if Dead(s, capacity) {
      assert Next(s, Offer(true), capacity) == s;
      assert Next(s, Arrive([0]), capacity) == s;
    }
    if Deframe(s.buffered).Err? && |s.buffered| == capacity {
      forall e: Event
        ensures Next(s, e, capacity) == s
      {
        if e.Arrive? && |e.bytes| == 0 {
          assert s.received + e.bytes == s.received && s.buffered + e.bytes == s.buffered;
        }
      }
    }
  }

  /** The run is dead although payloads that were sent have not been consumed. */
  ghost predicate StuckRun(events: seq<Event>, more: seq<Byte>, sent: seq<seq<Byte>>, capacity: nat) {
    var s := Run(events, capacity);
    Sending(s, sent, more) && s.delivered != sent && Dead(s, capacity)
  }

  lemma FittingIsNeverStuck(events: seq<Event>, more: seq<Byte>, sent: seq<seq<Byte>>, capacity: nat)
    requires AllWithin(sent, capacity)
    ensures !StuckRun(events, more, sent, capacity)
  {
    hide Framed, Deframe, Stream, Dead;
    var s := Run(events, capacity);
    RunKeeps(events, capacity);
    if Sending(s, sent, more) && s.delivered != sent {
      WaitingForNext(s, capacity, sent, more);
      DeadIsFullAndWaiting(s, capacity);
      FrameLayout(sent[|s.delivered|]);
    }
  }

  /** One frame at a time: each arrives whole and is accepted. */
  function Feed(payloads: seq<seq<Byte>>): seq<Event> {
    if |payloads| == 0 then []
    else Feed(payloads[..|payloads| - 1]) + [Arrive(Framed(payloads[|payloads| - 1])), Offer(true)]
  }

  lemma FeedOne(s: State, payload: seq<Byte>, capacity: nat)
    requires s.buffered == [] && |payload| < LIMIT && PREFIX + |payload| <= capacity
    ensures var t := Next(Next(s, Arrive(Framed(payload)), capacity), Offer(true), capacity);
            t.received == s.received + Framed(payload) && t.delivered == s.delivered + [payload] && t.buffered == []
  {
    hide Framed, Deframe;
    var frame := Framed(payload);
    FrameLayout(payload);
    FrameRoundTrip(payload);
    assert [] + frame == frame && frame[|frame|..] == [];
  }

  /** Everything fed so far was received and consumed. */
  ghost predicate Fed(payloads: seq<seq<Byte>>, capacity: nat) {
    var s := Run(Feed(payloads), capacity);
    s.received == Stream(payloads) && s.delivered == payloads && s.buffered == []
  }

  lemma FeedLast(init: seq<seq<Byte>>, last: seq<Byte>)
    ensures Feed(init + [last]) == Feed(init) + [Arrive(Framed(last))] + [Offer(true)]
  {
    hide Framed;
    assert (init + [last])[..|init|] == init;
  }

  lemma FedNext(init: seq<seq<Byte>>, last: seq<Byte>, capacity: nat)
    requires Fed(init, capacity) && |last| < LIMIT && PREFIX + |last| <= capacity
    ensures Fed(init + [last], capacity)
  {
    hide Framed, Stream, Next, Run, Feed;
    var events, frame := Feed(init), Framed(last);
    FeedLast(init, last);
    RunStep(events, Arrive(frame), capacity);
    RunStep(events + [Arrive(frame)], Offer(true), capacity);
    FeedOne(Run(events, capacity), last, capacity);
    StreamAppend(init, last);
  }

  lemma {:induction false} FeedConsumes(payloads: seq<seq<Byte>>, capacity: nat)
    requires AllFit(payloads) && AllWithin(payloads, capacity)
    ensures Fed(payloads, capacity)
  {
    if |payloads| > 0 {
      hide Fed;
      var init, last := payloads[..|payloads| - 1], payloads[|payloads| - 1];
      FeedConsumes(init, capacity);
      FedNext(init, last, capacity);
      assert payloads == init + [last];
    } else {
      NothingFed(payloads, capacity);
    }
  }

  lemma NothingFed(payloads: seq<seq<Byte>>, capacity: nat)
    requires payloads == []
    ensures Fed(payloads, capacity)
  {
  }

  /** Up to the first frame that does not fit everything can be consumed; then its beginning fills the buffer. */
  lemma OversizedGetsStuck(sent: seq<seq<Byte>>, capacity: nat, i: nat)
    returns (events: seq<Event>, more: seq<Byte>)
    requires AllFit(sent) && i < |sent| && AllWithin(sent[..i], capacity) && PREFIX + |sent[i]| > capacity
    ensures StuckRun(events, more, sent, capacity)
  {
    hide Framed, Deframe, Stream, Dead, Run, Feed;
    var frame, rest := Framed(sent[i]), Stream(sent[i + 1..]);
    FrameLayout(sent[i]);
    FeedConsumes(sent[..i], capacity);
    events := Feed(sent[..i]) + [Arrive(frame[..capacity])];
    more := frame[capacity..] + rest;
    RunStep(Feed(sent[..i]), Arrive(frame[..capacity]), capacity);
    assert [] + frame[..capacity] == frame[..capacity];
    StreamSplit(sent, i);
    assert frame == frame[..capacity] + frame[capacity..];
    assert Stream(sent[..i]) + frame[..capacity] + more == Stream(sent[..i]) + (frame + rest);
    ProperPrefixRefused(sent[i], capacity);
    DeadIsFullAndWaiting(Run(events, capacity), capacity);
  }

  lemma {:induction false} StreamSplit(payloads: seq<seq<Byte>>, i: nat)
    requires i < |payloads|
    ensures Stream(payloads) == Stream(payloads[..i]) + (Framed(payloads[i]) + Stream(payloads[i + 1..]))
  {
    hide Framed;
    if i == 0 {
      assert Stream(payloads[..0]) == [];
    } else {
      StreamSplit(payloads[1..], i - 1);
      assert payloads[1..][..i - 1] == payloads[..i][1..] && payloads[1..][i - 1 + 1..] == payloads[i + 1..];
      assert Stream(payloads[..i]) == Framed(payloads[0]) + Stream(payloads[..i][1..]);
    }
  }

  lemma {:induction false} FirstOversized(payloads: seq<seq<Byte>>, capacity: nat) returns (i: nat)
    requires !AllWithin(payloads, capacity)
    ensures i < |payloads| && AllWithin(payloads[..i], capacity) && PREFIX + |payloads[i]| > capacity
  {
    var init := payloads[..|payloads| - 1];
    if AllWithin(init, capacity) {
      i := |payloads| - 1;
    } else {
      i := FirstOversized(init, capacity);
      assert init[..i] == payloads[..i];
    }
  }

  /** A pump can get stuck before all that was sent is consumed exactly when some frame exceeds its buffer. */
  lemma NeverStuckExactly(sent: seq<seq<Byte>>, capacity: nat)
    requires AllFit(sent)
    ensures AllWithin(sent, capacity) <==>
            forall events: seq<Event>, more: seq<Byte> :: !StuckRun(events, more, sent, capacity)
  {
    hide StuckRun;
    if AllWithin(sent, capacity) {
      forall events: seq<Event>, more: seq<Byte>
        ensures !StuckRun(events, more, sent, capacity)
      {
        FittingIsNeverStuck(events, more, sent, capacity);
      }
    } else {
      var i := FirstOversized(sent, capacity);
      var events, more := OversizedGetsStuck(sent, capacity, i);
    }
  }

  /** In no run is a frame that exceeds the buffer consumed, nor anything sent after it. */
  lemma OversizedBlocks(events: seq<Event>, capacity: nat, sent: seq<seq<Byte>>, more: seq<Byte>, i: nat)
    requires Sending(Run(events, capacity), sent, more) && i < |sent| && PREFIX + |sent[i]| > capacity
    ensures |Run(events, capacity).delivered| <= i
  {
    hide Framed, Deframe, Stream;
    var s := Run(events, capacity);
    RunKeeps(events, capacity);
    WaitingForNext(s, capacity, sent, more);
    assert forall k :: 0 <= k < |s.delivered| ==> s.delivered[k] == sent[k];
  }

  // ---------------------------------------------------------------- finishing a run

  /** The events that follow make the run consume everything that was sent. */
  ghost predicate Finishes(events: seq<Event>, next: seq<Event>, sent: seq<seq<Byte>>, capacity: nat) {
    var s := Run(events + next, capacity);
    s.received == Stream(sent) && s.delivered == sent
  }

  /** The bytes missing from a next frame that fits may arrive; then it can be consumed. */
  lemma NextFrame(s: State, payload: seq<Byte>, more: seq<Byte>, rest: seq<Byte>, capacity: nat)
    returns (bytes: seq<Byte>, later: seq<Byte>)
    requires |payload| < LIMIT && PREFIX + |payload| <= capacity && |s.buffered| <= capacity
    requires s.buffered + more == Framed(payload) + rest
    ensures bytes + later == more
    ensures var t := Next(Next(s, Arrive(bytes), capacity), Offer(true), capacity);
            t.received == s.received + bytes && t.delivered == s.delivered + [payload]
  {
    hide Framed, Deframe;
    var frame, all := Framed(payload), s.buffered + more;
    FrameLayout(payload);
    var missing := if |s.buffered| < |frame| then |frame| - |s.buffered| else 0;
    bytes, later := more[..missing], more[missing..];
    if |s.buffered| < |frame| {
      assert s.buffered + bytes == all[..|frame|] == frame;
    } else {
      assert frame == all[..|frame|] == (s.buffered + bytes)[..|frame|];
    }
    DeframeMeaning(s.buffered + bytes, payload);
  }

  /** From any point of a run whose next frame fits, one more payload can be consumed. */
  lemma OneMore(events: seq<Event>, more: seq<Byte>, sent: seq<seq<Byte>>, capacity: nat)
    returns (bytes: seq<Byte>, later: seq<Byte>)
    requires var s := Run(events, capacity);
             Sending(s, sent, more) && s.delivered < sent && PREFIX + |sent[|s.delivered|]| <= capacity
    ensures var t := Run(events + [Arrive(bytes)] + [Offer(true)], capacity);
            Sending(t, sent, later) && |t.delivered| == |Run(events, capacity).delivered| + 1
  {
    hide Framed, Stream, Next, Run;
    var s := Run(events, capacity);
    RunKeeps(events, capacity);
    var rest := ComingNext(s, capacity, sent, more);
    bytes, later := NextFrame(s, sent[|s.delivered|], more, rest, capacity);
    RunStep(events, Arrive(bytes), capacity);
    RunStep(events + [Arrive(bytes)], Offer(true), capacity);
    assert s.received + bytes + later == s.received + more;
  }

  /** What is buffered and to come starts with the next frame sent. */
  lemma ComingNext(s: State, capacity: nat, sent: seq<seq<Byte>>, more: seq<Byte>) returns (rest: seq<Byte>)
    requires Conserved(s, capacity) && Sending(s, sent, more) && s.delivered < sent
    ensures s.buffered + more == Framed(sent[|s.delivered|]) + rest
  {
    hide Framed, Deframe, Stream;
    assert Stream(s.delivered) + s.buffered + more == Stream(s.delivered) + (s.buffered + more);
    assert Stream(sent) + [] == Stream(sent);
    EmptyWaits();
    ConsumedInOrder(s.delivered, s.buffered + more, sent, []);
    var k := |s.delivered|;
    rest := Stream(sent[k..][1..]) + [];
    assert sent[k..][0] == sent[k];
    FirstFrame(sent[k..], []);
  }

  lemma {:induction false} Finish(events: seq<Event>, more: seq<Byte>, sent: seq<seq<Byte>>, capacity: nat)
    returns (next: seq<Event>)
    requires Sending(Run(events, capacity), sent, more) && AllWithin(sent, capacity)
    ensures Finishes(events, next, sent, capacity)
    decreases |sent| - |Run(events, capacity).delivered|
  {
    hide Framed, Deframe, Stream, Next, Run;
    var s := Run(events, capacity);
    RunKeeps(events, capacity);
    WaitingForNext(s, capacity, sent, more);
    if s.delivered == sent {
      next := [Arrive(more)];
      AllConsumed(s, capacity, sent, more);
      RunStep(events, Arrive(more), capacity);
      LastArrives(s, more, capacity);
    } else {
      var bytes, later := OneMore(events, more, sent, capacity);
      var step := [Arrive(bytes)] + [Offer(true)];
      assert events + [Arrive(bytes)] + [Offer(true)] == events + step;
      RunKeeps(events + step, capacity);
      WaitingForNext(Run(events + step, capacity), capacity, sent, later);
      var after := Finish(events + step, later, sent, capacity);
      next := step + after;
      assert events + step + after == events + next;
    }
  }

  /** When all that was sent is consumed nothing is buffered or to come. */
  lemma AllConsumed(s: State, capacity: nat, sent: seq<seq<Byte>>, more: seq<Byte>)
    requires Conserved(s, capacity) && Sending(s, sent, more) && s.delivered == sent
    ensures s.buffered == [] && more == [] && s.received == Stream(sent)
  {
    hide Stream;
    assert |s.buffered| + |more| == 0;
  }

  lemma LastArrives(s: State, more: seq<Byte>, capacity: nat)
    requires s.buffered == [] && more == []
    ensures var t := Next(s, Arrive(more), capacity);
            t.received == s.received && t.delivered == s.delivered
  {
    assert s.received + [] == s.received;
  }

  /**
   * From every point of every run, however its bytes were cut and however often payloads were refused, all
   * that was sent can still be consumed exactly when every frame fits the buffer.
   */
  lemma FinishableExactly(events: seq<Event>, more: seq<Byte>, sent: seq<seq<Byte>>, capacity: nat)
    requires Sending(Run(events, capacity), sent, more)
    ensures AllWithin(sent, capacity) <==> exists next: seq<Event> :: Finishes(events, next, sent, capacity)
  {
    hide Run, Stream;
    if AllWithin(sent, capacity) {
      var next := Finish(events, more, sent, capacity);
    }
    if next: seq<Event> :| Finishes(events, next, sent, capacity) {
      RunKeeps(events + next, capacity);
    }
  }
}
