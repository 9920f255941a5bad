/**
  * The bridge between CallKit and Dart: two dictionaries, a queue, and a report for
  * every push. What it does to CallKit, and to PushKit's completions, is a list of acts.
  */
module CallKit {
  import opened Options

  type CallId = string
  type Uuid = nat
  type Push = nat

  datatype Message = OnIncoming(call: CallId, conversation: Option<string>) | OnAnswer(call: CallId) | OnEnd(call: CallId)

  datatype EndReason = AnsweredElsewhere | RemoteEnded | Failed

  /** What leaves the bridge towards the system. */
  datatype Act = Reports(push: Push, uuid: Uuid) | Completes(push: Push) | Ends(uuid: Uuid, reason: EndReason) | Fulfils(uuid: Uuid) | Refuses(uuid: Uuid)

  /** A report under way: of a new call, of a call already on the screen, or of none that can be named. */
  datatype Report =
    | OfNew(push: Push, uuid: Uuid, call: CallId, conversation: Option<string>)
    | OfShown(push: Push, uuid: Uuid)
    | OfNone(push: Push, uuid: Uuid)

  /** The bridge's fields, what Dart has been handed, and the acts so far. */
  datatype State = State(
    uuidByCall: map<CallId, Uuid>, callByUuid: map<Uuid, CallId>,
    pending: seq<Message>, ready: bool, attached: bool,
    delivered: seq<Message>, acts: seq<Act>)

  // ---------------------------------------------------------------- what each event does

  function Sent(s: State, m: Message): State {
    if s.ready && s.attached then s.(delivered := s.delivered + [m]) else s.(pending := s.pending + [m])
  }

  function Drained(s: State): State {
    s.(pending := [], delivered := if s.attached then s.delivered + s.pending else s.delivered)
  }

  function Forgotten(s: State, call: CallId): State {
    if call in s.uuidByCall then s.(uuidByCall := s.uuidByCall - {call}, callByUuid := s.callByUuid - {s.uuidByCall[call]}) else s
  }

  function Acted(s: State, a: Act): State {
    s.(acts := s.acts + [a])
  }

  function ReasonOf(reason: string): EndReason {
    if reason == "answeredElsewhere" then AnsweredElsewhere else if reason == "failed" then Failed else RemoteEnded
  }

  /** A push: a report is made at once, whatever the push says. */
  function Pushed(s: State, push: Push, call: Option<CallId>, conversation: Option<string>, uuid: Uuid): (State, Report) {
    if call.None? || call.value == "" then (Acted(s, Reports(push, uuid)), OfNone(push, uuid))
    else if call.value in s.uuidByCall then
      (Acted(s, Reports(push, s.uuidByCall[call.value])), OfShown(push, s.uuidByCall[call.value]))
    else
      (Acted(s.(uuidByCall := s.uuidByCall[call.value := uuid], callByUuid := s.callByUuid[uuid := call.value]), Reports(push, uuid)),
       OfNew(push, uuid, call.value, conversation))
  }

  function Named(conversation: Option<string>): Option<string> {
    if conversation.Some? && conversation.value != "" then conversation else None
  }

  /** The system answers a report. */
  function Reported(s: State, r: Report, refused: bool): State {
    match r
    case OfNew(push, _, call, conversation) =>
      Acted(if refused then Forgotten(s, call) else Sent(s, OnIncoming(call, Named(conversation))), Completes(push))
    case OfShown(push, _) => Acted(s, Completes(push))
    case OfNone(push, uuid) => Acted(Acted(s, Ends(uuid, Failed)), Completes(push))
  }

  function Dismissed(s: State, call: CallId, reason: string): State {
    if call in s.uuidByCall then Forgotten(Acted(s, Ends(s.uuidByCall[call], ReasonOf(reason))), call) else s
  }

  function Answered(s: State, uuid: Uuid): State {
    if uuid in s.callByUuid then Acted(Sent(s, OnAnswer(s.callByUuid[uuid])), Fulfils(uuid)) else Acted(s, Refuses(uuid))
  }

  function EndedByUser(s: State, uuid: Uuid): State {
    if uuid in s.callByUuid then Acted(Forgotten(Sent(s, OnEnd(s.callByUuid[uuid])), s.callByUuid[uuid]), Fulfils(uuid)) else Acted(s, Refuses(uuid))
  }

  // ---------------------------------------------------------------- the class

  class Bridge {
    var uuidByCall: map<CallId, Uuid>
    var callByUuid: map<Uuid, CallId>
    var pending: seq<Message>
    var dartIsReady: bool
    var channel: bool
    var delivered: seq<Message>
    var acts: seq<Act>

    ghost function Now(): State
      reads this
    {
      State(uuidByCall, callByUuid, pending, dartIsReady, channel, delivered, acts)
    }

    constructor ()
      ensures Now() == State(map[], map[], [], false, false, [], [])
    {
      uuidByCall, callByUuid, pending := map[], map[], [];
      dartIsReady, channel, delivered, acts := false, false, [], [];
    }

    method Attach()
      modifies this
      ensures Now() == old(Now()).(attached := true)
    {
      channel := true;
    }

    /** Dart says it listens; the call comes over the channel. */
    method Ready()
      modifies this
      ensures Now() == Drained(old(Now()).(ready := true))
    {
      dartIsReady := true;
      Drain();
    }

    method Send(m: Message)
      modifies this
      ensures Now() == Sent(old(Now()), m)
    {
      if !(dartIsReady && channel) {
        pending := pending + [m];
        return;
      }
      delivered := delivered + [m];
    }

    method Drain()
      modifies this
      ensures Now() == Drained(old(Now()))
    {
      var queued := pending;
      pending := [];
      for k := 0 to |queued|
        invariant uuidByCall == old(uuidByCall) && callByUuid == old(callByUuid) && acts == old(acts)
        invariant pending == [] && dartIsReady == old(dartIsReady) && channel == old(channel)
        invariant delivered == if channel then old(delivered) + queued[..k] else old(delivered)
      {
        if channel {
          delivered := delivered + [queued[k]];
        }
      }
      assert queued[..|queued|] == queued;
    }

    method Forget(call: CallId)
      modifies this
      ensures Now() == Forgotten(old(Now()), call)
    {
      if call in uuidByCall {
        var uuid := uuidByCall[call];
        uuidByCall := uuidByCall - {call};
        callByUuid := callByUuid - {uuid};
      }
    }

    method ReportIncoming(push: Push, call: Option<CallId>, conversation: Option<string>, uuid: Uuid) returns (r: Report)
      modifies this
      ensures (Now(), r) == Pushed(old(Now()), push, call, conversation, uuid)
    {
      if call.None? || call.value == "" {
        acts := acts + [Reports(push, uuid)];
        return OfNone(push, uuid);
      }
      if call.value in uuidByCall {
        acts := acts + [Reports(push, uuidByCall[call.value])];
        return OfShown(push, uuidByCall[call.value]);
      }
      uuidByCall := uuidByCall[call.value := uuid];
      callByUuid := callByUuid[uuid := call.value];
      acts := acts + [Reports(push, uuid)];
      return OfNew(push, uuid, call.value, conversation);
    }

    method ReportAnswered(r: Report, refused: bool)
      modifies this
      ensures Now() == Reported(old(Now()), r, refused)
    {
      match r {
        case OfNew(_, _, call, conversation) =>
          if refused {
            Forget(call);
          } else {
            Send(OnIncoming(call, if conversation.Some? && conversation.value != "" then conversation else None));
          }
        case OfShown(_, _) =>
        case OfNone(_, uuid) => acts := acts + [Ends(uuid, Failed)];
      }
      acts := acts + [Completes(r.push)];
    }

    method Dismiss(call: CallId, reason: string)
      modifies this
      ensures Now() == Dismissed(old(Now()), call, reason)
    {
      if call !in uuidByCall {
        return;
      }
      acts := acts + [Ends(uuidByCall[call], ReasonOf(reason))];
      Forget(call);
    }

    method ProviderDidReset()
      modifies this
      ensures Now() == old(Now()).(uuidByCall := map[], callByUuid := map[])
    {
      uuidByCall, callByUuid := map[], map[];
    }

    method PerformAnswer(uuid: Uuid)
      modifies this
      ensures Now() == Answered(old(Now()), uuid)
    {
      if uuid !in callByUuid {
        acts := acts + [Refuses(uuid)];
        return;
      }
      Send(OnAnswer(callByUuid[uuid]));
      acts := acts + [Fulfils(uuid)];
    }

    method PerformEnd(uuid: Uuid)
      modifies this
      ensures Now() == EndedByUser(old(Now()), uuid)
    {
      if uuid !in callByUuid {
        acts := acts + [Refuses(uuid)];
        return;
      }
      var call := callByUuid[uuid];
      Send(OnEnd(call));
      Forget(call);
      acts := acts + [Fulfils(uuid)];
    }
  }
}
