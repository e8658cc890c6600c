/** A notification subscription: what the server may send, and what the consumer sees of it. */
module SubscriptionProtocol {
  import opened Options

  const MAX_RESOURCES := 256
  const MAX_EVENTS := 1024

  /** A filter set: for each list kind a flag if named, and resource URIs if named. */
  datatype Filters = Filters(tools: Option<bool>, prompts: Option<bool>, resources: Option<bool>, uris: Option<seq<string>>)

  datatype Kind = Tools | Prompts | Resources

  datatype Event = ListChanged(kind: Kind) | ResourceUpdated(uri: string)

  // Values as the server sent them.
  datatype Flag = Absent | Bool(b: bool) | NotBool
  datatype Uri = Text(s: string) | NotText
  datatype Uris = NoUris | UriList(items: seq<Uri>) | NotAList
  datatype Params = NotAMapping | NoFilter | Notifications(unknownKey: bool, tools: Flag, prompts: Flag, resources: Flag, uris: Uris)

  datatype Message =
    | Acknowledged(params: Params)
    | Changed(kind: Kind)
    | Updated(uri: Uri)
    | OtherMethod
    | Completion(valid: bool)
    | PumpFailure

  datatype Failure =
    | AckInvalid | AckNoFilter | AckUnknownFilter | AckUnrequestedFilter | AckInvalidResources
    | AckBadUri | AckUnrequestedResource | AckNothing
    | EventBeforeAck | QueueOverflow | UnrequestedResource | BadUri | UnrequestedChange
    | InvalidCompletion | StreamFailed

  /** The future that the subscriber awaits. */
  datatype Handshake = Pending | Granted | Refused

  /** The object's fields, with everything ever published and consumed. */
  datatype Sub = Sub(
    requested: Filters,
    acknowledged: Option<Filters>,
    handshake: Handshake,
    events: seq<Event>,
    ended: bool,
    error: Option<Failure>,
    published: seq<Event>,
    consumed: seq<Event>)

  function Fresh(requested: Filters): (r: Sub) {
    Sub(requested, None, Pending, [], false, None, [], [])
  }

  // ---------------------------------------------------------------- acknowledgment

  function Wanted(f: Filters, k: Kind): (r: Option<bool>) {
    match k case Tools => f.tools case Prompts => f.prompts case Resources => f.resources
  }

  /** A flag the server may acknowledge: a boolean, and true only if asked for. */
  predicate FlagOk(asked: Option<bool>, given: Flag) {
    given.Absent? || (given.Bool? && (given.b ==> asked == Some(true)))
  }

  function FlagValue(given: Flag): (r: Option<bool>) {
    if given.Bool? then Some(given.b) else None
  }

  function Texts(items: seq<Uri>): (r: seq<string>)
    requires forall i :: 0 <= i < |items| ==> items[i].Text?
    ensures |r| == |items| && forall i :: 0 <= i < |r| ==> r[i] == items[i].s
  {
    seq(|items|, i requires 0 <= i < |items| => items[i].s)
  }

  predicate Distinct(s: seq<string>) {
    forall i, j :: 0 <= i < j < |s| ==> s[i] != s[j]
  }

  predicate Within(s: seq<string>, asked: Option<seq<string>>) {
    forall i :: 0 <= i < |s| ==> asked.Some? && s[i] in asked.value
  }

  datatype Reading<T> = Accepted(value: T) | Rejected(failure: Failure)

  function ReadUris(asked: Option<seq<string>>, given: Uris, uriOk: string -> bool): (r: Reading<Option<seq<string>>>) {
    match given
    case NoUris => Accepted(None)
    case NotAList => Rejected(AckInvalidResources)
    case UriList(items) =>
      if |items| > MAX_RESOURCES then Rejected(AckInvalidResources)
      else if exists i :: 0 <= i < |items| && !(items[i].Text? && uriOk(items[i].s)) then Rejected(AckBadUri)
      else if !Distinct(Texts(items)) || !Within(Texts(items), asked) then Rejected(AckUnrequestedResource)
      else Accepted(Some(Texts(items)))
  }

  predicate GrantsSomething(f: Filters) {
    f.tools == Some(true) || f.prompts == Some(true) || f.resources == Some(true) || (f.uris.Some? && f.uris.value != [])
  }

  function ReadFilters(requested: Filters, params: Params, uriOk: string -> bool): (r: Reading<Filters>) {
    match params
    case NotAMapping => Rejected(AckInvalid)
    case NoFilter => Rejected(AckNoFilter)
    case Notifications(unknownKey, tools, prompts, resources, uris) =>
      if unknownKey then Rejected(AckUnknownFilter)
      else if !FlagOk(requested.tools, tools) || !FlagOk(requested.prompts, prompts) || !FlagOk(requested.resources, resources)
      then Rejected(AckUnrequestedFilter)
      else
        var read := ReadUris(requested.uris, uris, uriOk);
        if read.Rejected? then Rejected(read.failure)
        else
          var f := Filters(FlagValue(tools), FlagValue(prompts), FlagValue(resources), read.value);
          if GrantsSomething(f) then Accepted(f) else Rejected(AckNothing)
  }

  /** A filter set that stays within the requested one. */
  predicate StaysWithin(f: Filters, requested: Filters) {
    && (forall k :: Wanted(f, k) == Some(true) ==> Wanted(requested, k) == Some(true))
    && (f.uris.Some? ==> Distinct(f.uris.value) && Within(f.uris.value, requested.uris) && |f.uris.value| <= MAX_RESOURCES)
  }

  /** What is accepted stays within what was requested and grants something. */
  lemma AcceptedStaysWithin(requested: Filters, params: Params, uriOk: string -> bool)
    ensures var r := ReadFilters(requested, params, uriOk);
            r.Accepted? ==> StaysWithin(r.value, requested) && GrantsSomething(r.value)
  {
    var r := ReadFilters(requested, params, uriOk);
    if r.Accepted? {
      forall k ensures Wanted(r.value, k) == Some(true) ==> Wanted(requested, k) == Some(true) {
        match k { case Tools => case Prompts => case Resources => }
      }
    }
  }

  // ------------------------------------------------------------------- transitions

  function Finish(s: Sub): (r: Sub) {
    if s.ended then s else s.(ended := true, handshake := if s.handshake.Pending? then Refused else s.handshake)
  }

  function Fail(s: Sub, f: Failure): (r: Sub) {
    if s.ended then s else Finish(s.(error := Some(f)))
  }

  function Acknowledge(s: Sub, params: Params, uriOk: string -> bool): (r: Sub) {
    if s.ended || !s.handshake.Pending? then Fail(s, AckInvalid)
    else
      match ReadFilters(s.requested, params, uriOk)
      case Rejected(f) => Fail(s, f)
      case Accepted(f) => s.(acknowledged := Some(f), handshake := Granted)
  }

  function Publish(s: Sub, e: Event): (r: Sub) {
    if s.ended then s
    else if s.handshake.Pending? then Fail(s, EventBeforeAck)
    else if |s.events| >= MAX_EVENTS then Fail(s, QueueOverflow)
    else s.(events := s.events + [e], published := s.published + [e])
  }

  /** The acknowledged filters cover events of this kind. */
  predicate Covers(acknowledged: Option<Filters>, e: Event) {
    acknowledged.Some?
    && match e
       case ListChanged(k) => Wanted(acknowledged.value, k) == Some(true)
       case ResourceUpdated(_) => acknowledged.value.uris.Some? && acknowledged.value.uris.value != []
  }

  /** One message for this subscription. */
  function Receive(s: Sub, m: Message, uriOk: string -> bool): (r: Sub) {
    match m
    case Acknowledged(params) => Acknowledge(s, params, uriOk)
    case OtherMethod => s
    case Changed(k) => if Covers(s.acknowledged, ListChanged(k)) then Publish(s, ListChanged(k)) else Fail(s, UnrequestedChange)
    case Updated(uri) =>
      if uri.NotText? || !Covers(s.acknowledged, ResourceUpdated(uri.s)) then Fail(s, UnrequestedResource)
      else if !uriOk(uri.s) then Fail(s, BadUri)
      else Publish(s, ResourceUpdated(uri.s))
    case Completion(valid) => if valid then Finish(s) else Fail(s, InvalidCompletion)
    case PumpFailure => Fail(s, StreamFailed)
  }

  /** What one turn of `__anext__` does: hand out an event, raise, stop, or wait. */
  datatype Turn = Event(event: Event) | Raise(error: Failure) | Stop | Wait

  function Look(s: Sub): (r: Turn) {
    if s.events != [] then Turn.Event(s.events[0])
    else if !s.ended then Wait
    else if s.error.Some? then Raise(s.error.value)
    else Stop
  }

  function Take(s: Sub): (r: Sub) {
    if s.events == [] then s else s.(events := s.events[1..], consumed := s.consumed + [s.events[0]])
  }

  /** What can happen to a subscription. */
  datatype Action = Message(message: Message) | Consume | Close

  function Step(s: Sub, a: Action, uriOk: string -> bool): (r: Sub) {
    match a
    case Message(m) => Receive(s, m, uriOk)
    case Consume => Take(s)
    case Close => Finish(s)
  }

  function Run(s: Sub, actions: seq<Action>, uriOk: string -> bool): (r: Sub)
    decreases |actions|
  {
    if actions == [] then s else Run(Step(s, actions[0], uriOk), actions[1..], uriOk)
  }

  // ------------------------------------------------------------------- the invariant

  ghost predicate Inv(s: Sub) {
    && s.published == s.consumed + s.events
    && |s.events| <= MAX_EVENTS
    && (s.acknowledged.Some? <==> s.handshake.Granted?)
    && (s.acknowledged.Some? ==> StaysWithin(s.acknowledged.value, s.requested) && GrantsSomething(s.acknowledged.value))
    && (s.handshake.Refused? ==> s.ended) && (s.ended ==> !s.handshake.Pending?)
    && (s.error.Some? ==> s.ended && s.error.value != EventBeforeAck)
    && (forall i :: 0 <= i < |s.published| ==> Covers(s.acknowledged, s.published[i]))
  }

  lemma FailKeepsInv(s: Sub, f: Failure)
    requires Inv(s) && f != EventBeforeAck
    ensures Inv(Fail(s, f)) && Inv(Finish(s))
  {
  }

  lemma PublishKeepsInv(s: Sub, e: Event)
    requires Inv(s) && Covers(s.acknowledged, e)
    ensures Inv(Publish(s, e))
  {
    hide StaysWithin, GrantsSomething;
    assert s.consumed + (s.events + [e]) == (s.consumed + s.events) + [e];
  }

  lemma TakeKeepsInv(s: Sub)
    requires Inv(s)
    ensures Inv(Take(s))
  {
    hide StaysWithin, GrantsSomething;
    if s.events != [] {
      assert s.events == [s.events[0]] + s.events[1..];
      assert s.consumed + s.events == (s.consumed + [s.events[0]]) + s.events[1..];
    }
  }

  lemma AcknowledgeKeepsInv(s: Sub, params: Params, uriOk: string -> bool)
    requires Inv(s)
    ensures Inv(Acknowledge(s, params, uriOk))
  {
    AcceptedStaysWithin(s.requested, params, uriOk);
    RejectionIsNotEarly(s.requested, params, uriOk);
    hide ReadFilters, StaysWithin, GrantsSomething;
    assert |s.published| > 0 ==> Covers(s.acknowledged, s.published[0]);
    assert s.acknowledged.None? ==> |s.published| == 0;
  }

  lemma RejectionIsNotEarly(requested: Filters, params: Params, uriOk: string -> bool)
    ensures var r := ReadFilters(requested, params, uriOk); r.Rejected? ==> r.failure != EventBeforeAck
  {
  }

  lemma StepKeepsInv(s: Sub, a: Action, uriOk: string -> bool)
    requires Inv(s)
    ensures Inv(Step(s, a, uriOk))
  {
    hide Inv, Fail, Finish, Publish, Take, Acknowledge;
    match a {
      case Consume => TakeKeepsInv(s);
      case Close => FailKeepsInv(s, StreamFailed);
      case Message(m) =>
        match m {
          case Acknowledged(params) => AcknowledgeKeepsInv(s, params, uriOk);
          case OtherMethod =>
          case Changed(k) =>
            FailKeepsInv(s, UnrequestedChange);
            if Covers(s.acknowledged, ListChanged(k)) { PublishKeepsInv(s, ListChanged(k)); }
          case Updated(uri) =>
            FailKeepsInv(s, UnrequestedResource);
            FailKeepsInv(s, BadUri);
            if uri.Text? && Covers(s.acknowledged, ResourceUpdated(uri.s)) { PublishKeepsInv(s, ResourceUpdated(uri.s)); }
          case Completion(valid) => FailKeepsInv(s, InvalidCompletion);
          case PumpFailure => FailKeepsInv(s, StreamFailed);
        }
    }
  }

  /** From a fresh subscription, whatever arrives in whatever order: acknowledged filters stay within
  the requested ones, every event published is of an acknowledged kind, the queue is bounded, and the
  consumer has seen exactly the events published before those still queued, in that order. */
  lemma {:induction false} RunKeepsInv(s: Sub, actions: seq<Action>, uriOk: string -> bool)
    requires Inv(s)
    ensures Inv(Run(s, actions, uriOk))
    decreases |actions|
  {
    if actions != [] {
      StepKeepsInv(s, actions[0], uriOk);
      hide Inv, Step;
      RunKeepsInv(Step(s, actions[0], uriOk), actions[1..], uriOk);
    }
  }

  lemma FreshRun(requested: Filters, actions: seq<Action>, uriOk: string -> bool)
    ensures Inv(Run(Fresh(requested), actions, uriOk))
  {
    hide Run;
    RunKeepsInv(Fresh(requested), actions, uriOk);
  }

  /** What `t` may differ in from an earlier `s`. */
  ghost predicate Evolves(s: Sub, t: Sub) {
    && t.requested == s.requested
    && s.published <= t.published && s.consumed <= t.consumed
    && (s.acknowledged.Some? ==> t.acknowledged == s.acknowledged)
    && (!s.handshake.Pending? ==> t.handshake == s.handshake)
    && (s.ended ==> t.ended && t.published == s.published && t.acknowledged == s.acknowledged && t.error == s.error)
  }

  lemma StepEvolves(s: Sub, a: Action, uriOk: string -> bool)
    requires Inv(s)
    ensures Evolves(s, Step(s, a, uriOk))
  {
    hide ReadFilters, StaysWithin, GrantsSomething;
  }

  /** Acknowledged at most once; once ended, nothing is published, acknowledged or failed any more. */
  lemma {:induction false} RunEvolves(s: Sub, actions: seq<Action>, uriOk: string -> bool)
    requires Inv(s)
    ensures Evolves(s, Run(s, actions, uriOk))
    decreases |actions|
  {
    if actions != [] {
      StepEvolves(s, actions[0], uriOk);
      StepKeepsInv(s, actions[0], uriOk);
      hide Inv, Step;
      RunEvolves(Step(s, actions[0], uriOk), actions[1..], uriOk);
    }
  }

  // ---------------------------------------------------------------- failures come last

  function Consumptions(actions: seq<Action>): (r: nat) {
    if actions == [] then 0 else (if actions[0].Consume? then 1 else 0) + Consumptions(actions[1..])
  }

  /** After the end only consumption changes anything, whatever else still arrives. */
  lemma {:induction false} EndedOnlyDrains(s: Sub, actions: seq<Action>, uriOk: string -> bool)
    requires Inv(s) && s.ended
    ensures var t, k := Run(s, actions, uriOk), Consumptions(actions);
            t.ended && t.error == s.error && t.events == if k <= |s.events| then s.events[k..] else []
    decreases |actions|
  {
    if actions != [] {
      StepKeepsInv(s, actions[0], uriOk);
      StepOfEnded(s, actions[0], uriOk);
      hide Inv, Step;
      EndedOnlyDrains(Step(s, actions[0], uriOk), actions[1..], uriOk);
    }
  }

  lemma StepOfEnded(s: Sub, a: Action, uriOk: string -> bool)
    requires s.ended
    ensures Step(s, a, uriOk) == if a.Consume? then Take(s) else s
  {
  }

  /** The consumer of an ended subscription gets the queued events in order, and only then the recorded
  failure, or the end of the stream when there is none. */
  lemma FailureSurfacesLast(s: Sub, actions: seq<Action>, uriOk: string -> bool)
    requires Inv(s) && s.ended
    ensures var k := Consumptions(actions);
            Look(Run(s, actions, uriOk))
            == if k < |s.events| then Turn.Event(s.events[k])
               else if s.error.Some? then Raise(s.error.value)
               else Stop
  {
    hide Inv, Run;
    EndedOnlyDrains(s, actions, uriOk);
  }

  /** An event is published exactly when its kind was acknowledged, the stream is live, the queue has
  room and, for a resource, the URI is well formed. */
  lemma PublishedExactlyWhen(s: Sub, e: Event, uriOk: string -> bool)
    requires Inv(s)
    ensures var m := match e case ListChanged(k) => Changed(k) case ResourceUpdated(u) => Updated(Text(u));
            var ok := match e case ListChanged(_) => true case ResourceUpdated(u) => uriOk(u);
            var t := Receive(s, m, uriOk);
            t.published == (if !s.ended && Covers(s.acknowledged, e) && ok && |s.events| < MAX_EVENTS then s.published + [e] else s.published)
  {
    hide StaysWithin, GrantsSomething;
  }

  predicate AnyUri(uri: string) {
    true
  }

  /** Acknowledging some resource lets updates of every resource through: the URI of an update is not
  compared with the acknowledged URIs. */
  lemma UpdatesAreNotMatchedByUri()
    ensures exists requested, actions :: Unmatched(requested, actions)
  {
    var requested := Filters(None, None, None, Some(["a:1"]));
    var ack := Acknowledged(Notifications(false, Absent, Absent, Absent, UriList([Text("a:1")])));
    var actions := [Message(ack), Message(Updated(Text("b:2")))];
    var uriOk := AnyUri;
    var s := Fresh(requested);
    assert Texts([Text("a:1")]) == ["a:1"];
    assert Within(["a:1"], requested.uris);
    var t := Step(s, actions[0], uriOk);
    assert t.acknowledged == Some(Filters(None, None, None, Some(["a:1"])));
    var u := Step(t, actions[1], uriOk);
    assert u.published == [ResourceUpdated("b:2")];
    assert actions[1..][0] == actions[1] && actions[1..][1..] == [];
    assert Run(u, [], uriOk) == u;
    assert Run(t, actions[1..], uriOk) == u;
    assert Run(s, actions, uriOk) == u;
    assert "a:1"[0] != "b:2"[0];
    assert u.acknowledged.value.uris.value == ["a:1"] && u.published[0].ResourceUpdated?;
    assert u.published[0].uri !in u.acknowledged.value.uris.value;
    assert Unmatched(requested, actions);
  }

  ghost predicate Unmatched(requested: Filters, actions: seq<Action>) {
    var s := Run(Fresh(requested), actions, AnyUri);
    && s.acknowledged.Some? && s.acknowledged.value.uris.Some?
    && exists i :: 0 <= i < |s.published| && s.published[i].ResourceUpdated? && s.published[i].uri !in s.acknowledged.value.uris.value
  }

  // ------------------------------------------------------------ what is accepted, exactly

  /** The flag the server gave, for a filter that was or was not asked for. */
  predicate FlagRead(asked: Option<bool>, given: Flag, read: Option<bool>) {
    match given
    case Absent => read == None
    case Bool(b) => read == Some(b) && (b ==> asked == Some(true))
    case NotBool => false
  }

  predicate UriRead(asked: Option<seq<string>>, given: Uri, uriOk: string -> bool, uri: string) {
    given == Text(uri) && uriOk(uri) && asked.Some? && uri in asked.value
  }

  predicate UrisRead(asked: Option<seq<string>>, given: Uris, uriOk: string -> bool, read: Option<seq<string>>) {
    match given
    case NoUris => read == None
    case NotAList => false
    case UriList(items) =>
      && read.Some? && |items| <= 256 && |read.value| == |items|
      && (forall i :: 0 <= i < |items| ==> UriRead(asked, items[i], uriOk, read.value[i]))
      && (forall i, j :: 0 <= i < j < |items| ==> read.value[i] != read.value[j])
  }

  /** An acknowledgment is read as these filters if and only if each is what the server gave and may give, and together
  they grant something. */
  lemma ReadExactly(requested: Filters, params: Params, uriOk: string -> bool, f: Filters)
    ensures ReadFilters(requested, params, uriOk) == Accepted(f) <==>
      && params.Notifications? && !params.unknownKey
      && FlagRead(requested.tools, params.tools, f.tools) && FlagRead(requested.prompts, params.prompts, f.prompts)
      && FlagRead(requested.resources, params.resources, f.resources)
      && UrisRead(requested.uris, params.uris, uriOk, f.uris)
      && (f.tools == Some(true) || f.prompts == Some(true) || f.resources == Some(true) || (f.uris.Some? && f.uris.value != []))
  {
    if params.Notifications? {
      UrisReadExactly(requested.uris, params.uris, uriOk, f.uris);
      hide ReadUris, UrisRead;
    }
  }

  lemma UrisReadExactly(asked: Option<seq<string>>, given: Uris, uriOk: string -> bool, read: Option<seq<string>>)
    ensures ReadUris(asked, given, uriOk) == Accepted(read) <==> UrisRead(asked, given, uriOk, read)
  {
    if given.UriList? {
      if ReadUris(asked, given, uriOk) == Accepted(read) {
        AcceptedUrisAreRead(asked, given.items, uriOk);
      } else if UrisRead(asked, given, uriOk, read) {
        ReadUrisAreAccepted(asked, given.items, uriOk, read.value);
      }
    }
  }

  lemma AcceptedUrisAreRead(asked: Option<seq<string>>, items: seq<Uri>, uriOk: string -> bool)
    requires ReadUris(asked, UriList(items), uriOk).Accepted?
    ensures UrisRead(asked, UriList(items), uriOk, ReadUris(asked, UriList(items), uriOk).value)
  {
    forall i | 0 <= i < |items| ensures UriRead(asked, items[i], uriOk, Texts(items)[i]) { assert Texts(items)[i] == items[i].s; }
  }

  lemma ReadUrisAreAccepted(asked: Option<seq<string>>, items: seq<Uri>, uriOk: string -> bool, read: seq<string>)
    requires UrisRead(asked, UriList(items), uriOk, Some(read))
    ensures ReadUris(asked, UriList(items), uriOk) == Accepted(Some(read))
  {
    var given := Some(read);
    forall i | 0 <= i < |items| ensures items[i] == Text(read[i]) && uriOk(read[i]) { assert UriRead(asked, items[i], uriOk, given.value[i]); }
    assert Texts(items) == read;
    forall i, j | 0 <= i < j < |read| ensures read[i] != read[j] { assert given.value[i] != given.value[j]; }
    assert Distinct(read);
    if items != [] {
      assert UriRead(asked, items[0], uriOk, given.value[0]);
      var uris := asked.value;
      forall i | 0 <= i < |read| ensures read[i] in uris { assert UriRead(asked, items[i], uriOk, given.value[i]); }
    }
    assert Within(read, asked);
  }

  function Echoed(flag: Option<bool>): (r: Flag) {
    if flag.Some? then Bool(flag.value) else Absent
  }

  function EchoedUris(uris: Option<seq<string>>): (r: Uris) {
    if uris.Some? then UriList(seq(|uris.value|, i requires 0 <= i < |uris.value| => Text(uris.value[i]))) else NoUris
  }

  /** An acknowledgment of exactly what was requested is accepted as it is, and grants the subscription. */
  lemma EchoIsGranted(requested: Filters, uriOk: string -> bool)
    requires GrantsSomething(requested)
    requires requested.uris.Some? ==>
      |requested.uris.value| <= MAX_RESOURCES && Distinct(requested.uris.value) && forall u :: u in requested.uris.value ==> uriOk(u)
    ensures var params := Notifications(false, Echoed(requested.tools), Echoed(requested.prompts), Echoed(requested.resources), EchoedUris(requested.uris));
            Acknowledge(Fresh(requested), params, uriOk) == Fresh(requested).(acknowledged := Some(requested), handshake := Granted)
  {
    var params := Notifications(false, Echoed(requested.tools), Echoed(requested.prompts), Echoed(requested.resources), EchoedUris(requested.uris));
    assert UrisRead(requested.uris, params.uris, uriOk, requested.uris);
    ReadExactly(requested, params, uriOk, requested);
    hide ReadFilters, UrisRead;
  }

  // ------------------------------------------------------------- what every message does

  /** Ended now, with that failure on record and nothing published, consumed or acknowledged. */
  predicate FailedWith(s: Sub, t: Sub, f: Failure) {
    t == s.(ended := true, error := Some(f), handshake := if s.handshake.Pending? then Refused else s.handshake)
  }

  predicate Published(s: Sub, t: Sub, e: Event) {
    if |s.events| < 1024 then t == s.(events := s.events + [e], published := s.published + [e]) else FailedWith(s, t, QueueOverflow)
  }

  /** The effect of every message on a live subscription; an ended one is changed by none. */
  lemma MessageDoes(s: Sub, m: Message, uriOk: string -> bool)
    requires Inv(s)
    ensures s.ended ==> Receive(s, m, uriOk) == s
    ensures !s.ended ==>
      var t, granted := Receive(s, m, uriOk), s.acknowledged;
      match m
      case Acknowledged(params) =>
        if s.handshake.Granted? then FailedWith(s, t, AckInvalid)
        else
          (match ReadFilters(s.requested, params, uriOk)
           case Accepted(f) => t == s.(acknowledged := Some(f), handshake := Granted)
           case Rejected(f) => FailedWith(s, t, f))
      case Changed(k) =>
        if granted.Some? && (match k case Tools => granted.value.tools case Prompts => granted.value.prompts case Resources => granted.value.resources) == Some(true)
        then Published(s, t, ListChanged(k)) else FailedWith(s, t, UnrequestedChange)
      case Updated(uri) =>
        if granted.None? || granted.value.uris.None? || granted.value.uris.value == [] || uri.NotText? then FailedWith(s, t, UnrequestedResource)
        else if uriOk(uri.s) then Published(s, t, ResourceUpdated(uri.s)) else FailedWith(s, t, BadUri)
      case OtherMethod => t == s
      case Completion(valid) =>
        if valid then t == s.(ended := true, handshake := if s.handshake.Pending? then Refused else s.handshake)
        else FailedWith(s, t, InvalidCompletion)
      case PumpFailure => FailedWith(s, t, StreamFailed)
  {
    hide ReadFilters, StaysWithin, GrantsSomething;
  }
}
