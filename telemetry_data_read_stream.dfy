/** The test helper `TelemetryDataReadStream`: a read stream that produces a given
    number of telemetry messages, one per tick of a periodic timer, honouring pause and
    resume, and that schedules its end handler once everything has been produced.
    The timer is modelled by an explicit `Tick`, the handlers by identities, and what
    the stream hands out by ghost logs. */
module TelemetryStreams {
  import opened JavaLang

  /** The identity of a callback object registered with the stream. */
  type HandlerId = nat

  /** A message id taken from the counter: handed to the registered handler, or lost
      because the tick found no handler and threw. */
  datatype Emission = Delivered(messageId: int, handler: HandlerId) | Dropped(messageId: int)

  /** The scheduling of an end handler: the number of the `endHandler` registration it
      came from, and the handler. */
  datatype EndFiring = EndFiring(registration: nat, handler: HandlerId)

  /** The i-th emission carries id i, for every i: ids were taken as `0, 1, 2, ...`. */
  ghost predicate NumberedFromZero(emissions: seq<Emission>)
  {
    emissions == [] ||
    (emissions[|emissions| - 1].messageId == |emissions| - 1 &&
     NumberedFromZero(emissions[..|emissions| - 1]))
  }

  /** Appending an emission keeps the numbering exactly when it carries the next id. */
  lemma NumberedAppend(emissions: seq<Emission>, e: Emission)
    ensures NumberedFromZero(emissions + [e]) <==> NumberedFromZero(emissions) && e.messageId == |emissions|
  {
    assert (emissions + [e])[..|emissions|] == emissions;
  }

  /** The ids that reached a handler, in the order they were handed out. */
  ghost function DeliveredIds(emissions: seq<Emission>): (r: seq<int>)
    ensures |r| <= |emissions|
  {
    if emissions == [] then []
    else
      var last := emissions[|emissions| - 1];
      DeliveredIds(emissions[..|emissions| - 1]) + (if last.Delivered? then [last.messageId] else [])
  }

  /** The numbering means what it says: no gap and no repeat, id i at position i. */
  lemma {:induction false} ConsecutiveIds(emissions: seq<Emission>)
    ensures NumberedFromZero(emissions) <==>
            forall i :: 0 <= i < |emissions| ==> emissions[i].messageId == i
  {
    if emissions != [] {
      var n := |emissions|;
      var init := emissions[..n - 1];
      ConsecutiveIds(init);
      assert forall i :: 0 <= i < n - 1 ==> emissions[i] == init[i];
    }
  }

  /** Appending an emission appends its id to the delivered ids when it was delivered. */
  lemma DeliveredSnoc(init: seq<Emission>, last: Emission)
    ensures DeliveredIds(init + [last]) == DeliveredIds(init) + (if last.Delivered? then [last.messageId] else [])
  {
    assert (init + [last])[..|init|] == init;
  }

  /** With ids numbered from zero, the handlers see strictly increasing ids, each below
      the number taken, and exactly `0, 1, ..., n-1` when no id was dropped. */
  lemma {:induction false} DeliveredIdsIncrease(emissions: seq<Emission>)
    requires NumberedFromZero(emissions)
    ensures var ids := DeliveredIds(emissions);
            forall i, j :: 0 <= i < j < |ids| ==> ids[i] < ids[j]
    ensures var ids := DeliveredIds(emissions);
            forall i :: 0 <= i < |ids| ==> 0 <= ids[i] < |emissions|
    ensures (forall i :: 0 <= i < |emissions| ==> emissions[i].Delivered?) ==>
              var ids := DeliveredIds(emissions);
              |ids| == |emissions| && forall i :: 0 <= i < |ids| ==> ids[i] == i
    decreases |emissions|, 1
  {
    if emissions != [] {
      var init, last := emissions[..|emissions| - 1], emissions[|emissions| - 1];
      assert emissions == init + [last];
      DeliveredIdsIncreaseStep(init, last);
    }
  }

  /** The inductive step of `DeliveredIdsIncrease`: one more emission, carrying the next id. */
  lemma {:induction false} DeliveredIdsIncreaseStep(init: seq<Emission>, last: Emission)
    requires NumberedFromZero(init + [last])
    ensures var ids := DeliveredIds(init + [last]);
            forall i, j :: 0 <= i < j < |ids| ==> ids[i] < ids[j]
    ensures var ids := DeliveredIds(init + [last]);
            forall i :: 0 <= i < |ids| ==> 0 <= ids[i] < |init| + 1
    ensures (forall i :: 0 <= i < |init| + 1 ==> (init + [last])[i].Delivered?) ==>
              var ids := DeliveredIds(init + [last]);
              |ids| == |init| + 1 && forall i :: 0 <= i < |ids| ==> ids[i] == i
    decreases |init| + 1, 0
  {
    var n := |init| + 1;
    NumberedAppend(init, last);
    DeliveredIdsIncrease(init);
    DeliveredSnoc(init, last);
    var before := DeliveredIds(init);
    var ids := DeliveredIds(init + [last]);
    assert ids == before + (if last.Delivered? then [n - 1] else []);
    forall i, j | 0 <= i < j < |ids| ensures ids[i] < ids[j] {
      assert ids[i] == before[i];
      if j < |before| {
        assert ids[j] == before[j];
      }
    }
    forall i | 0 <= i < |ids| ensures 0 <= ids[i] < n {
      if i < |before| {
        assert ids[i] == before[i];
      }
    }
    if forall i :: 0 <= i < n ==> (init + [last])[i].Delivered? {
      assert forall i :: 0 <= i < n - 1 ==> init[i] == (init + [last])[i];
      assert last == (init + [last])[n - 1];
      assert |before| == n - 1;
      forall i | 0 <= i < |ids| ensures ids[i] == i {
        if i < n - 1 {
          assert ids[i] == before[i];
        }
      }
    }
  }

  /** Registrations that fired, in strictly increasing order and all below `bound`. */
  ghost predicate FiredBelow(fired: seq<EndFiring>, bound: int)
  {
    fired == [] ||
    (var last := fired[|fired| - 1];
     last.registration < bound && FiredBelow(fired[..|fired| - 1], last.registration))
  }

  /** Appending a firing below `bound` that comes after every earlier one keeps the order. */
  lemma FiredBelowAppend(fired: seq<EndFiring>, f: EndFiring, bound: int)
    requires FiredBelow(fired, f.registration) && f.registration < bound
    ensures FiredBelow(fired + [f], bound)
  {
    assert (fired + [f])[..|fired|] == fired;
  }

  /** No registration of an end handler fires twice: their numbers increase strictly. */
  lemma {:induction false} FiredAtMostOnce(fired: seq<EndFiring>, bound: int)
    requires FiredBelow(fired, bound)
    ensures forall i, j :: 0 <= i < j < |fired| ==> fired[i].registration < fired[j].registration
    ensures forall i :: 0 <= i < |fired| ==> fired[i].registration < bound
  {
    if fired != [] {
      var n := |fired|;
      var init := fired[..n - 1];
      FiredAtMostOnce(init, fired[n - 1].registration);
      forall i, j | 0 <= i < j < n ensures fired[i].registration < fired[j].registration {
        assert fired[i] == init[i];
        if j < n - 1 {
          assert fired[j] == init[j];
        }
      }
      forall i | 0 <= i < n ensures fired[i].registration < bound {
        if i < n - 1 {
          assert fired[i] == init[i];
        }
      }
    }
  }

  class TelemetryDataReadStream {
    /** The number of messages to produce (a negative count produces none). */
    const messagesToSend: Int32
    /** The id of the next message. */
    var counter: Int32
    var endHandler: Option<HandlerId>
    var handler: Option<HandlerId>
    var paused: bool
    /** The periodic timers running the tick body: each registration of a non-null
        handler starts one, and each cancels itself on a tick that finds the stream
        finished. */
    var timers: nat

    /** Every id taken from the counter, in order. */
    ghost var emitted: seq<Emission>
    /** The number of `endHandler` calls so far; the current end handler, if any, came
        from the last of them. */
    ghost var endRegistrations: nat
    /** Every end handler scheduled so far, in order. */
    ghost var fired: seq<EndFiring>
    /** Whether a non-null handler has ever been registered. */
    ghost var started: bool

    /** The number of messages the stream produces in all. */
    function Total(): nat
      reads this
    {
      if messagesToSend < 0 then 0 else messagesToSend
    }

    ghost predicate Valid()
      reads this
    {
      && 0 <= counter <= Total()
      && |emitted| == counter && NumberedFromZero(emitted)
      && FiredBelow(fired, endRegistrations)
      && (endHandler.Some? ==> endRegistrations > 0 && FiredBelow(fired, endRegistrations - 1))
      && (|fired| > 0 ==> counter == Total())
      && (!started ==> timers == 0 && counter == 0 && fired == [])
    }

    /** The stream is created idle: nothing produced, no handler, no timer. */
    constructor (count: Int32)
      ensures Valid()
      ensures messagesToSend == count && counter == 0 && !paused
      ensures handler.None? && endHandler.None? && timers == 0
      ensures emitted == [] && fired == [] && endRegistrations == 0 && !started
    {
      messagesToSend := count;
      counter := 0;
      endHandler := None;
      handler := None;
      paused := false;
      timers := 0;
      emitted := [];
      endRegistrations := 0;
      fired := [];
      started := false;
    }

    /** `isFinished`: the counter has reached the number of messages to send. */
    predicate IsFinished()
      requires Valid()
      reads this
      ensures IsFinished() <==> counter == Total()
    {
      counter >= messagesToSend
    }

    /** `sendMore`: messages remain and the stream is not paused. */
    predicate SendMore()
      requires Valid()
      reads this
      ensures SendMore() <==> !paused && counter < Total()
    {
      !IsFinished() && !paused
    }

    /** `handler`: records the handler and, when it is not null, starts one more
        periodic timer. Production never restarts from zero. */
    method Handler(h: Option<HandlerId>)
      requires Valid()
      modifies this
      ensures Valid()
      ensures handler == h
      ensures timers == old(timers) + (if h.Some? then 1 else 0)
      ensures started == (old(started) || h.Some?)
      ensures counter == old(counter) && emitted == old(emitted) && paused == old(paused)
      ensures endHandler == old(endHandler) && fired == old(fired) && endRegistrations == old(endRegistrations)
    {
      handler := h;
      if h.Some? {
        timers := timers + 1;
        started := true;
      }
    }

    /** One run of the periodic timer body. When messages remain and the stream is not
        paused, the next id is taken from the counter and handed to the handler (a tick
        that finds no handler has taken the id and throws). Then, if every message has
        been produced, the timer cancels itself and a registered end handler is cleared
        and scheduled. */
    method Tick() returns (thrown: Option<Exception>)
      requires Valid() && timers > 0
      modifies this
      ensures Valid()
      ensures thrown == (if old(SendMore()) && old(handler).None? then Some(NullPointerException) else None)
      ensures counter == old(counter) + (if old(SendMore()) then 1 else 0)
      ensures emitted == old(emitted) +
                (if !old(SendMore()) then []
                 else if old(handler).Some? then [Delivered(old(counter), old(handler).value)]
                 else [Dropped(old(counter))])
      ensures old(paused) ==> counter == old(counter) && emitted == old(emitted)
      ensures old(endHandler).Some? ==> endRegistrations > 0
      ensures var finishes := thrown.None? && counter == Total();
              && timers == (if finishes then old(timers) - 1 else old(timers))
              && endHandler == (if finishes then None else old(endHandler))
              && fired == old(fired) +
                   (if finishes && old(endHandler).Some?
                    then [EndFiring(endRegistrations - 1, old(endHandler).value)] else [])
      ensures old(IsFinished()) ==> counter == old(counter) && timers == old(timers) - 1 && endHandler.None?
      ensures |fired| <= |old(fired)| + 1
      ensures |fired| > |old(fired)| ==> counter == Total()
      ensures handler == old(handler) && paused == old(paused)
      ensures endRegistrations == old(endRegistrations) && started == old(started)
    {
      thrown := EmitNext();
      if thrown.None? {
        CompleteIfFinished();
      }
    }

    /** First half of a tick: hands the next id to the handler, if any is due. */
    method EmitNext() returns (thrown: Option<Exception>)
      requires Valid() && timers > 0
      modifies this
      ensures Valid()
      ensures thrown == (if old(SendMore()) && old(handler).None? then Some(NullPointerException) else None)
      ensures counter == old(counter) + (if old(SendMore()) then 1 else 0)
      ensures emitted == old(emitted) +
                (if !old(SendMore()) then []
                 else if old(handler).Some? then [Delivered(old(counter), old(handler).value)]
                 else [Dropped(old(counter))])
      ensures handler == old(handler) && paused == old(paused) && timers == old(timers)
      ensures endHandler == old(endHandler) && fired == old(fired)
      ensures endRegistrations == old(endRegistrations) && started == old(started)
    {
      thrown := None;
      if SendMore() {
        var messageId := counter;
        counter := counter + 1;
        if handler.None? {
          NumberedAppend(emitted, Dropped(messageId));
          emitted := emitted + [Dropped(messageId)];
          thrown := Some(NullPointerException);
        } else {
          NumberedAppend(emitted, Delivered(messageId, handler.value));
          emitted := emitted + [Delivered(messageId, handler.value)];
        }
      }
    }

    /** Second half of a tick: once every message is out, the timer cancels itself and a
        registered end handler is cleared and scheduled. */
    method CompleteIfFinished()
      requires Valid() && timers > 0
      modifies this
      ensures Valid()
      ensures old(endHandler).Some? ==> endRegistrations > 0
      ensures var finishes := old(counter) == Total();
              && timers == (if finishes then old(timers) - 1 else old(timers))
              && endHandler == (if finishes then None else old(endHandler))
              && fired == old(fired) +
                   (if finishes && old(endHandler).Some?
                    then [EndFiring(endRegistrations - 1, old(endHandler).value)] else [])
      ensures counter == old(counter) && emitted == old(emitted) && handler == old(handler)
      ensures paused == old(paused) && endRegistrations == old(endRegistrations) && started == old(started)
    {
      if IsFinished() {
        timers := timers - 1;
        if endHandler.Some? {
          var theHandler := endHandler.value;
          endHandler := None;
          FiredBelowAppend(fired, EndFiring(endRegistrations - 1, theHandler), endRegistrations);
          fired := fired + [EndFiring(endRegistrations - 1, theHandler)];
        }
      }
    }

    /** `pause`: sets the flag and nothing else. */
    method Pause()
      requires Valid()
      modifies this
      ensures Valid()
      ensures paused
      ensures counter == old(counter) && emitted == old(emitted) && handler == old(handler) && timers == old(timers)
      ensures endHandler == old(endHandler) && fired == old(fired) && endRegistrations == old(endRegistrations)
      ensures started == old(started)
    {
      paused := true;
    }

    /** `resume`: clears the flag and nothing else. */
    method Resume()
      requires Valid()
      modifies this
      ensures Valid()
      ensures !paused
      ensures counter == old(counter) && emitted == old(emitted) && handler == old(handler) && timers == old(timers)
      ensures endHandler == old(endHandler) && fired == old(fired) && endRegistrations == old(endRegistrations)
      ensures started == old(started)
    {
      paused := false;
    }

    /** `endHandler`: replaces the end handler; the new registration has not fired. */
    method EndHandler(h: Option<HandlerId>)
      requires Valid()
      modifies this
      ensures Valid()
      ensures endHandler == h && endRegistrations == old(endRegistrations) + 1
      ensures counter == old(counter) && emitted == old(emitted) && handler == old(handler) && timers == old(timers)
      ensures paused == old(paused) && fired == old(fired) && started == old(started)
    {
      endHandler := h;
      endRegistrations := endRegistrations + 1;
    }
  }

  /** A paused stream takes no id: the tick while paused leaves the counter where it
      was, and after resume production continues with the next id. */
  method PauseHoldsPosition()
  {
    var stream := new TelemetryDataReadStream(5);
    stream.Handler(Some(1));
    var thrown := stream.Tick();
    thrown := stream.Tick();
    stream.Pause();
    thrown := stream.Tick();
    assert stream.counter == 2 && |stream.emitted| == 2 && stream.timers == 1;
    stream.Resume();
    thrown := stream.Tick();
    assert stream.counter == 3 && stream.emitted[2] == Delivered(2, 1);
  }

  /** Two messages: the end handler is not scheduled after the first, and is scheduled
      once after the second, when the only timer cancels itself. */
  method EndHandlerAfterLastMessage()
  {
    var stream := new TelemetryDataReadStream(2);
    stream.EndHandler(Some(7));
    stream.Handler(Some(1));
    var thrown := stream.Tick();
    assert stream.fired == [] && stream.endHandler == Some(7);
    thrown := stream.Tick();
    assert thrown.None? && stream.emitted == [Delivered(0, 1), Delivered(1, 1)];
    assert stream.fired == [EndFiring(0, 7)] && stream.endHandler.None? && stream.timers == 0;
  }
}
