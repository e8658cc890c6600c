/** `McpNotificationSubscription` as an object, proved against the protocol functions. */
module NotificationSubscription {
  import opened Options
  import opened SubscriptionProtocol

  class McpNotificationSubscription {
    const requested: Filters
    const uriOk: string -> bool
    var acknowledged: Option<Filters>
    var handshake: Handshake
    var events: seq<Event>
    var ended: bool
    var closed: bool
    var error: Option<Failure>
    ghost var published: seq<Event>
    ghost var consumed: seq<Event>

    ghost function View(): (r: Sub)
      reads this
    {
      Sub(requested, acknowledged, handshake, events, ended, error, published, consumed)
    }

    ghost predicate Valid()
      reads this
    {
      Inv(View())
    }

    constructor (requested: Filters, uriOk: string -> bool)
      ensures Valid() && View() == Fresh(requested) && this.uriOk == uriOk && !closed
    {
      this.requested := requested;
      this.uriOk := uriOk;
      acknowledged, handshake, events, ended, closed, error := None, Pending, [], false, false, None;
      published, consumed := [], [];
    }

    /** `_finish`. */
    method Finish()
      modifies this
      ensures View() == SubscriptionProtocol.Finish(old(View())) && closed == old(closed)
    {
      if ended { return; }
      ended := true;
      if handshake.Pending? { handshake := Refused; }
    }

    /** `_fail`. */
    method Fail(f: Failure)
      modifies this
      ensures View() == SubscriptionProtocol.Fail(old(View()), f) && closed == old(closed)
    {
      if ended { return; }
      error := Some(f);
      if handshake.Pending? { handshake := Refused; }
      Finish();
    }

    /** `_acknowledge`. */
    method Acknowledge(params: Params)
      modifies this
      ensures View() == SubscriptionProtocol.Acknowledge(old(View()), params, uriOk) && closed == old(closed)
    {
      if ended || !handshake.Pending? || params.NotAMapping? {
        Fail(AckInvalid);
        return;
      }
      var read := ReadFilters(requested, params, uriOk);
      if read.Rejected? {
        Fail(read.failure);
        return;
      }
      acknowledged := Some(read.value);
      handshake := Granted;
    }

    /** `_publish`. */
    method Publish(e: Event)
      modifies this
      ensures View() == SubscriptionProtocol.Publish(old(View()), e) && closed == old(closed)
    {
      if ended { return; }
      if handshake.Pending? {
        Fail(EventBeforeAck);
        return;
      }
      if |events| >= MAX_EVENTS {
        Fail(QueueOverflow);
        return;
      }
      events := events + [e];
      published := published + [e];
    }

    /** `_dispatch_notification` and the completion branch of `_read_responses`, for this subscription. */
    method Dispatch(m: Message)
      requires Valid()
      modifies this
      ensures Valid() && View() == Receive(old(View()), m, uriOk) && closed == old(closed)
    {
      StepKeepsInv(View(), Message(m), uriOk);
      hide Inv;
      match m {
        case Acknowledged(params) => Acknowledge(params);
        case OtherMethod =>
        case Changed(kind) =>
          if acknowledged.Some? && Wanted(acknowledged.value, kind) == Some(true) {
            Publish(ListChanged(kind));
          } else {
            Fail(UnrequestedChange);
          }
        case Updated(uri) =>
          if acknowledged.None? || acknowledged.value.uris.None? || acknowledged.value.uris.value == [] || uri.NotText? {
            Fail(UnrequestedResource);
          } else if uriOk(uri.s) {
            Publish(ResourceUpdated(uri.s));
          } else {
            Fail(BadUri);
          }
        case Completion(valid) =>
          if valid { Finish(); } else { Fail(InvalidCompletion); }
        case PumpFailure => Fail(StreamFailed);
      }
    }

    /** One turn of the loop in `__anext__`. */
    method Next() returns (turn: Turn)
      requires Valid()
      modifies this
      ensures Valid() && turn == Look(old(View())) && View() == Take(old(View())) && closed == old(closed)
    {
      StepKeepsInv(View(), Consume, uriOk);
      hide Inv;
      if events == [] && !ended { return Wait; }
      if events != [] {
        turn := Turn.Event(events[0]);
        consumed := consumed + [events[0]];
        events := events[1..];
        return;
      }
      turn := if error.Some? then Raise(error.value) else Stop;
    }

    /** `aclose`: the cancellation request goes out at most once, and the stream ends whether or not it raises. The
        provider forgets the subscription first, so while the request is under way only the consumer
        takes turns, `meanwhile` many. */
    method Aclose(meanwhile: nat, cancelRaises: bool) returns (cancelled: bool, raised: bool)
      requires Valid()
      modifies this
      ensures Valid() && closed && cancelled == !old(closed) && raised == (cancelled && cancelRaises)
      ensures View() == if old(closed) then old(View())
                        else SubscriptionProtocol.Finish(Run(old(View()), ConsumerTurns(meanwhile), uriOk))
    {
      if closed { return false, false; }
      closed := true;
      ghost var before := View();
      for i := 0 to meanwhile
        invariant Valid() && closed
        invariant Run(before, ConsumerTurns(meanwhile), uriOk) == Run(View(), ConsumerTurns(meanwhile - i), uriOk)
      {
        ConsumeFirst(View(), meanwhile - i, uriOk);
        var _ := Next();
      }
      StepKeepsInv(View(), Close, uriOk);
      hide Inv;
      Finish();
      cancelled, raised := true, cancelRaises;
    }
  }

  /** So many turns of the consumer and nothing else. */
  function ConsumerTurns(n: nat): (actions: seq<Action>) {
    if n == 0 then [] else [Consume] + ConsumerTurns(n - 1)
  }

  lemma ConsumeFirst(s: Sub, n: nat, uriOk: string -> bool)
    requires n > 0
    ensures Run(s, ConsumerTurns(n), uriOk) == Run(Take(s), ConsumerTurns(n - 1), uriOk)
  {
    assert ConsumerTurns(n)[1..] == ConsumerTurns(n - 1);
  }
}
