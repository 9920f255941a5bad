/**
  * Every run of pushes, answers to reports in any order and at any time, dismissals,
  * taps, resets, and Dart coming up: what the bridge keeps.
  */
module CallKitRuns {
  import opened Options
  import opened CallKit

  /** `reports` holds one entry a push; None once it was answered. `sent` is all that was ever said to Dart. */
  datatype World = World(s: State, reports: seq<Option<Report>>, sent: seq<Message>)

  // ---------------------------------------------------------------- the steps

  /** A uuid() is none in use, on the screen or being reported. */
  ghost predicate IsNew(w: World, uuid: Uuid) {
    && uuid !in w.s.callByUuid
    && forall k :: 0 <= k < |w.reports| && w.reports[k].Some? ==> w.reports[k].value.uuid != uuid
  }

  ghost predicate Pushes(w: World, w': World, call: Option<CallId>, conversation: Option<string>, uuid: Uuid) {
    && IsNew(w, uuid)
    && var (s, r) := Pushed(w.s, |w.reports|, call, conversation, uuid);
       w' == w.(s := s, reports := w.reports + [Some(r)])
  }

  function SaysOf(r: Report, refused: bool): seq<Message> {
    if r.OfNew? && !refused then [OnIncoming(r.call, Named(r.conversation))] else []
  }

  ghost predicate Answers(w: World, w': World, k: nat, refused: bool) {
    && k < |w.reports| && w.reports[k].Some?
    && w' == World(Reported(w.s, w.reports[k].value, refused), w.reports[k := None], w.sent + SaysOf(w.reports[k].value, refused))
  }

  ghost predicate Dismisses(w: World, w': World, call: CallId, reason: string) {
    w' == w.(s := Dismissed(w.s, call, reason))
  }

  ghost predicate TapsAnswer(w: World, w': World, uuid: Uuid) {
    w' == w.(s := Answered(w.s, uuid), sent := w.sent + (if uuid in w.s.callByUuid then [OnAnswer(w.s.callByUuid[uuid])] else []))
  }

  ghost predicate TapsEnd(w: World, w': World, uuid: Uuid) {
    w' == w.(s := EndedByUser(w.s, uuid), sent := w.sent + (if uuid in w.s.callByUuid then [OnEnd(w.s.callByUuid[uuid])] else []))
  }

  ghost predicate Resets(w: World, w': World) {
    w' == w.(s := w.s.(uuidByCall := map[], callByUuid := map[]))
  }

  ghost predicate Attaches(w: World, w': World) {
    w' == w.(s := w.s.(attached := true))
  }

  /** `ready` comes over the channel, so the channel is there. */
  ghost predicate Readies(w: World, w': World) {
    w.s.attached && w' == w.(s := Drained(w.s.(ready := true)))
  }

  ghost predicate Step(w: World, w': World) {
    || (exists call, conversation, uuid: Uuid :: Pushes(w, w', call, conversation, uuid))
    || (exists k: nat, refused :: Answers(w, w', k, refused))
    || (exists call, reason :: Dismisses(w, w', call, reason))
    || (exists uuid: Uuid :: TapsAnswer(w, w', uuid))
    || (exists uuid: Uuid :: TapsEnd(w, w', uuid))
    || Resets(w, w') || Attaches(w, w') || Readies(w, w')
  }

  ghost predicate IsStart(w: World) {
    && |w.s.uuidByCall| == 0 && |w.s.callByUuid| == 0 && |w.s.acts| == 0 && |w.reports| == 0
    && |w.s.pending| == 0 && |w.s.delivered| == 0 && |w.sent| == 0 && !w.s.ready && !w.s.attached
  }

  ghost predicate Follows(run: seq<World>, k: int)
    requires 1 <= k < |run|
  {
    Step(run[k - 1], run[k])
  }

  ghost predicate IsRun(run: seq<World>) {
    && |run| > 0 && IsStart(run[0])
    && forall k :: 1 <= k < |run| ==> Follows(run, k)
  }

  // ---------------------------------------------------------------- what is handed over, and why a call ends

  /** A push whose report is accepted is said to Dart with its call, and its conversation if it named one. */
  lemma AcceptedIsSaid(w: World, w': World, k: nat)
    requires Answers(w, w', k, false) && w.reports[k].value.OfNew?
    ensures var r := w.reports[k].value;
            && |w'.sent| == |w.sent| + 1 && w'.sent[..|w.sent|] == w.sent && w'.sent[|w.sent|].OnIncoming?
            && w'.sent[|w.sent|].call == r.call
            && (forall c :: w'.sent[|w.sent|].conversation == Some(c) <==> r.conversation == Some(c) && c != "")
  {
  }

  /** While Dart is not ready, or there is no channel, a message waits behind those before it; else it goes straight through. */
  lemma SendSays(s: State, m: Message)
    ensures !s.ready || !s.attached ==> Sent(s, m).delivered == s.delivered && Sent(s, m).pending == s.pending + [m]
    ensures s.ready && s.attached ==> Sent(s, m).delivered == s.delivered + [m] && Sent(s, m).pending == s.pending
  {
  }

  /** What a push says is what its report keeps. */
  lemma PushIsKept(w: World, w': World, call: Option<CallId>, conversation: Option<string>, uuid: Uuid)
    requires Pushes(w, w', call, conversation, uuid)
    ensures |w'.reports| == |w.reports| + 1 && w'.reports[|w.reports|].Some?
    ensures var r := w'.reports[|w.reports|].value;
            && (r.OfNone? <==> call == None || call == Some(""))
            && (r.OfNew? <==> call.Some? && call.value != "" && call.value !in w.s.uuidByCall)
            && (r.OfNew? ==> r.call == call.value && r.conversation == conversation && r.uuid == uuid)
            && (r.OfShown? ==> call.value in w.s.uuidByCall && r.uuid == w.s.uuidByCall[call.value])
  {
  }

  /** A known call's screen ends once, for the reason Dart gives; a call declined, or ended for any other reason, was ended by the other side. */
  lemma DismissalSays(w: World, w': World, call: CallId, reason: string)
    requires Dismisses(w, w', call, reason)
    ensures call !in w.s.uuidByCall ==> w'.s.acts == w.s.acts
    ensures call in w.s.uuidByCall ==>
              && |w'.s.acts| == |w.s.acts| + 1 && w'.s.acts[..|w.s.acts|] == w.s.acts
              && w'.s.acts[|w.s.acts|].Ends? && w'.s.acts[|w.s.acts|].uuid == w.s.uuidByCall[call]
              && (w'.s.acts[|w.s.acts|].reason == AnsweredElsewhere <==> reason == "answeredElsewhere")
              && (w'.s.acts[|w.s.acts|].reason == EndReason.Failed <==> reason == "failed")
  {
    assert "failed" != "answeredElsewhere" by {
      assert |"failed"| != |"answeredElsewhere"|;
    }
  }

  // ---------------------------------------------------------------- what is kept

  /** Each dictionary is the other read backwards. */
  ghost predicate AreInverse(s: State) {
    && (forall c :: c in s.uuidByCall ==> s.uuidByCall[c] in s.callByUuid && s.callByUuid[s.uuidByCall[c]] == c)
    && (forall u :: u in s.callByUuid ==> s.callByUuid[u] in s.uuidByCall && s.uuidByCall[s.callByUuid[u]] == u)
  }

  /** Dart was handed what was said to it, in order, once each, and nothing before it was ready. */
  ghost predicate NothingLost(w: World) {
    && w.s.delivered + w.s.pending == w.sent
    && (!w.s.ready ==> w.s.delivered == [])
    && (w.s.ready ==> w.s.attached && w.s.pending == [])
  }

  function ReportsOf(acts: seq<Act>, p: Push): nat {
    if acts == [] then 0
    else ReportsOf(acts[..|acts| - 1], p) + (if acts[|acts| - 1].Reports? && acts[|acts| - 1].push == p then 1 else 0)
  }

  function CompletesOf(acts: seq<Act>, p: Push): nat {
    if acts == [] then 0
    else CompletesOf(acts[..|acts| - 1], p) + (if acts[|acts| - 1] == Completes(p) then 1 else 0)
  }

  /** Every push was reported once, and its completion has run once if the report was answered, and not before. */
  ghost predicate IsServed(w: World, p: Push) {
    && ReportsOf(w.s.acts, p) == (if p < |w.reports| then 1 else 0)
    && CompletesOf(w.s.acts, p) == (if p < |w.reports| && w.reports[p].None? then 1 else 0)
  }

  ghost predicate ReportsAreTheirs(w: World) {
    forall k :: 0 <= k < |w.reports| && w.reports[k].Some? ==> w.reports[k].value.push == k
  }

  /** No completion stands before the report of its push. */
  ghost predicate CompletesAfter(acts: seq<Act>) {
    forall k :: 0 <= k < |acts| && acts[k].Completes? ==> ReportsOf(acts[..k], acts[k].push) == 1
  }

  ghost predicate Inv(w: World) {
    && AreInverse(w.s) && NothingLost(w) && ReportsAreTheirs(w) && CompletesAfter(w.s.acts)
    && forall p: Push :: IsServed(w, p)
  }

  // ---------------------------------------------------------------- the acts

  lemma OneAct(acts: seq<Act>, a: Act, p: Push)
    ensures ReportsOf(acts + [a], p) == ReportsOf(acts, p) + (if a.Reports? && a.push == p then 1 else 0)
    ensures CompletesOf(acts + [a], p) == CompletesOf(acts, p) + (if a == Completes(p) then 1 else 0)
  {
    assert (acts + [a])[..|acts|] == acts;
  }

  lemma ActKeepsOrder(acts: seq<Act>, a: Act)
    requires CompletesAfter(acts) && (a.Completes? ==> ReportsOf(acts, a.push) == 1)
    ensures CompletesAfter(acts + [a])
  {
    var more := acts + [a];
    forall k | 0 <= k < |more| && more[k].Completes? ensures ReportsOf(more[..k], more[k].push) == 1 {
      if k < |acts| {
        assert more[..k] == acts[..k] && more[k] == acts[k];
      } else {
        assert more[..k] == acts;
      }
    }
  }

  /** What the acts of one step must be for every push to stay served. */
  lemma ServedByReport(w: World, w': World, uuid: Uuid)
    requires Inv(w) && |w'.reports| == |w.reports| + 1 && w'.reports[..|w.reports|] == w.reports && w'.reports[|w.reports|].Some?
    requires w'.s.acts == w.s.acts + [Reports(|w.reports|, uuid)]
    ensures (forall p: Push :: IsServed(w', p)) && CompletesAfter(w'.s.acts)
  {
    forall p: Push ensures IsServed(w', p) {
      assert IsServed(w, p);
      OneAct(w.s.acts, Reports(|w.reports|, uuid), p);
      assert p < |w.reports| ==> w'.reports[p] == w.reports[p];
    }
    ActKeepsOrder(w.s.acts, Reports(|w.reports|, uuid));
  }

  lemma ServedByCompletion(w: World, reports: seq<Option<Report>>, s: State, acts: seq<Act>, k: nat)
    requires Inv(w) && k < |w.reports| && w.reports[k].Some? && reports == w.reports[k := None]
    requires (acts == w.s.acts || exists a :: acts == w.s.acts + [a] && a.Ends?) && s.acts == acts + [Completes(k)]
    ensures (forall p: Push :: IsServed(World(s, reports, w.sent), p)) && CompletesAfter(s.acts)
  {
    var a := Completes(k);
    forall p: Push ensures IsServed(World(s, reports, w.sent), p) && ReportsOf(acts, p) == ReportsOf(w.s.acts, p) {
      assert IsServed(w, p);
      if acts != w.s.acts {
        OneAct(w.s.acts, acts[|acts| - 1], p);
      }
      OneAct(acts, a, p);
    }
    if acts != w.s.acts {
      ActKeepsOrder(w.s.acts, acts[|acts| - 1]);
    }
    assert IsServed(w, k);
    ActKeepsOrder(acts, a);
  }

  lemma ServedByOther(w: World, w': World, a: Act)
    requires Inv(w) && w'.reports == w.reports && !a.Reports? && !a.Completes?
    requires w'.s.acts == w.s.acts + [a]
    ensures (forall p: Push :: IsServed(w', p)) && CompletesAfter(w'.s.acts)
  {
    forall p: Push ensures IsServed(w', p) {
      assert IsServed(w, p);
      OneAct(w.s.acts, a, p);
    }
    ActKeepsOrder(w.s.acts, a);
  }

  lemma ServedByNone(w: World, w': World)
    requires Inv(w) && w'.reports == w.reports && w'.s.acts == w.s.acts
    ensures forall p: Push :: IsServed(w', p)
  {
    forall p: Push ensures IsServed(w', p) {
      assert IsServed(w, p);
    }
  }

  // ---------------------------------------------------------------- the dictionaries and the queue

  lemma ForgettingKeepsInverse(s: State, call: CallId)
    requires AreInverse(s)
    ensures AreInverse(Forgotten(s, call))
  {
  }

  lemma SayingKeeps(s: State, sent: seq<Message>, m: Message)
    requires s.delivered + s.pending == sent && (!s.ready ==> s.delivered == []) && (s.ready ==> s.attached && s.pending == [])
    ensures var t := Sent(s, m);
            && t.delivered + t.pending == sent + [m]
            && (!t.ready ==> t.delivered == []) && (t.ready ==> t.attached && t.pending == [])
  {
  }

  // ---------------------------------------------------------------- every step

  lemma PushingKeeps(w: World, w': World, call: Option<CallId>, conversation: Option<string>, uuid: Uuid)
    requires Inv(w) && Pushes(w, w', call, conversation, uuid)
    ensures Inv(w')
  {
    var r := w'.reports[|w.reports|].value;
    ServedByReport(w, w', r.uuid);
    forall u | u in w.s.callByUuid && w.s.callByUuid[u] in w.s.uuidByCall ensures u != uuid {}
  }

  lemma AnsweringKeeps(w: World, w': World, k: nat, refused: bool)
    requires Inv(w) && Answers(w, w', k, refused)
    ensures Inv(w')
  {
    var r := w.reports[k].value;
    var acts := if r.OfNone? then w.s.acts + [Ends(r.uuid, Failed)] else w.s.acts;
    ServedByCompletion(w, w'.reports, w'.s, acts, k);
    forall p: Push ensures IsServed(w', p) {
      assert IsServed(World(w'.s, w'.reports, w.sent), p);
    }
    if r.OfNew? {
      ForgettingKeepsInverse(w.s, r.call);
      SayingKeeps(w.s, w.sent, OnIncoming(r.call, Named(r.conversation)));
    }
    assert w.sent + [] == w.sent;
  }

  lemma DismissingKeeps(w: World, w': World, call: CallId, reason: string)
    requires Inv(w) && Dismisses(w, w', call, reason)
    ensures Inv(w')
  {
    if call in w.s.uuidByCall {
      ServedByOther(w, w', Ends(w.s.uuidByCall[call], ReasonOf(reason)));
      ForgettingKeepsInverse(w.s, call);
    }
  }

  lemma TappingAnswerKeeps(w: World, w': World, uuid: Uuid)
    requires Inv(w) && TapsAnswer(w, w', uuid)
    ensures Inv(w')
  {
    if uuid in w.s.callByUuid {
      SayingKeeps(w.s, w.sent, OnAnswer(w.s.callByUuid[uuid]));
      ServedByOther(w, w', Fulfils(uuid));
    } else {
      ServedByOther(w, w', Refuses(uuid));
      assert w.sent + [] == w.sent;
    }
  }

  lemma TappingEndKeeps(w: World, w': World, uuid: Uuid)
    requires Inv(w) && TapsEnd(w, w', uuid)
    ensures Inv(w')
  {
    if uuid in w.s.callByUuid {
      SayingKeeps(w.s, w.sent, OnEnd(w.s.callByUuid[uuid]));
      ForgettingKeepsInverse(Sent(w.s, OnEnd(w.s.callByUuid[uuid])), w.s.callByUuid[uuid]);
      ServedByOther(w, w', Fulfils(uuid));
    } else {
      ServedByOther(w, w', Refuses(uuid));
      assert w.sent + [] == w.sent;
    }
  }

  lemma QuietKeeps(w: World, w': World)
    requires Inv(w) && (Resets(w, w') || Attaches(w, w') || Readies(w, w'))
    ensures Inv(w')
  {
    ServedByNone(w, w');
    assert w.s.delivered + w.s.pending + [] == w.sent;
  }

  lemma StepKeeps(w: World, w': World)
    requires Inv(w) && Step(w, w')
    ensures Inv(w')
  {
    if call, conversation, uuid: Uuid :| Pushes(w, w', call, conversation, uuid) {
      PushingKeeps(w, w', call, conversation, uuid);
    } else if k: nat, refused :| Answers(w, w', k, refused) {
      AnsweringKeeps(w, w', k, refused);
    } else if call, reason :| Dismisses(w, w', call, reason) {
      DismissingKeeps(w, w', call, reason);
    } else if uuid: Uuid :| TapsAnswer(w, w', uuid) {
      TappingAnswerKeeps(w, w', uuid);
    } else if uuid: Uuid :| TapsEnd(w, w', uuid) {
      TappingEndKeeps(w, w', uuid);
    } else {
      QuietKeeps(w, w');
    }
  }

  /** In every run: inverse dictionaries, one completion a push after its report, nothing lost on the way to Dart. */
  lemma {:induction false} RunsAreSafe(run: seq<World>, k: nat)
    requires IsRun(run) && k < |run|
    ensures Inv(run[k])
  {
    if k == 0 {
      StartIsSafe(run[0]);
    } else {
      RunsAreSafe(run, k - 1);
      assert Follows(run, k);
      StepKeeps(run[k - 1], run[k]);
    }
  }

  lemma StartIsSafe(w: World)
    requires IsStart(w)
    ensures Inv(w)
  {
  }

  // ---------------------------------------------------------------- a report refused late

  /** A refused report gives up the call by its name: whatever uuid the name has by then goes with it. */
  lemma RefusalForgetsItsOwnIff(s: State, r: Report)
    requires AreInverse(s) && r.OfNew?
    ensures (forall u :: u in s.callByUuid && u != r.uuid ==> u in Reported(s, r, true).callByUuid)
            <==> (r.call in s.uuidByCall ==> s.uuidByCall[r.call] == r.uuid)
  {
    if r.call in s.uuidByCall && s.uuidByCall[r.call] != r.uuid {
      assert s.uuidByCall[r.call] !in Reported(s, r, true).callByUuid;
    }
  }

  /**
    * A call pushed, reset, and pushed again has a new screen; the first report, refused
    * only then, takes that screen's mapping away, and a tap on it is refused.
    */
  lemma ALateRefusalForgetsTheNewScreen(call: CallId) returns (run: seq<World>)
    requires call != ""
    ensures IsRun(run)
    ensures var w := run[|run| - 1];
            && |w.reports| == 2 && w.reports[1].Some? && w.reports[1].value.OfNew?
            && w.reports[1].value.uuid !in w.s.callByUuid
            && Answered(w.s, w.reports[1].value.uuid).acts == w.s.acts + [Refuses(w.reports[1].value.uuid)]
  {
    var w0 := World(State(map[], map[], [], false, false, [], []), [], []);
    run := [w0];
    run := AfterPush(run, Some(call), None, 1);
    run := AfterReset(run);
    run := AfterPush(run, Some(call), None, 2);
    run := AfterAnswer(run, 0, true);
  }

  lemma Extended(run: seq<World>, w: World)
    requires IsRun(run) && Step(run[|run| - 1], w)
    ensures IsRun(run + [w])
  {
    var longer := run + [w];
    forall k | 1 <= k < |longer| ensures Follows(longer, k) {
      if k < |run| {
        assert Follows(run, k);
      }
    }
  }

  lemma AfterPush(run: seq<World>, call: Option<CallId>, conversation: Option<string>, uuid: Uuid) returns (longer: seq<World>)
    requires IsRun(run) && IsNew(run[|run| - 1], uuid)
    ensures IsRun(longer) && |longer| > 0
    ensures var w := run[|run| - 1]; var (s, r) := Pushed(w.s, |w.reports|, call, conversation, uuid);
            longer[|longer| - 1] == w.(s := s, reports := w.reports + [Some(r)])
  {
    var w := run[|run| - 1];
    var (s, r) := Pushed(w.s, |w.reports|, call, conversation, uuid);
    var w' := w.(s := s, reports := w.reports + [Some(r)]);
    assert Pushes(w, w', call, conversation, uuid);
    Extended(run, w');
    longer := run + [w'];
  }

  lemma AfterReset(run: seq<World>) returns (longer: seq<World>)
    requires IsRun(run)
    ensures IsRun(longer) && |longer| > 0
    ensures longer[|longer| - 1] == run[|run| - 1].(s := run[|run| - 1].s.(uuidByCall := map[], callByUuid := map[]))
  {
    var w := run[|run| - 1];
    var w' := w.(s := w.s.(uuidByCall := map[], callByUuid := map[]));
    assert Resets(w, w');
    Extended(run, w');
    longer := run + [w'];
  }

  lemma AfterAnswer(run: seq<World>, k: nat, refused: bool) returns (longer: seq<World>)
    requires IsRun(run) && k < |run[|run| - 1].reports| && run[|run| - 1].reports[k].Some?
    ensures IsRun(longer) && |longer| > 0
    ensures var w := run[|run| - 1]; var r := w.reports[k].value;
            longer[|longer| - 1] == World(Reported(w.s, r, refused), w.reports[k := None], w.sent + SaysOf(r, refused))
  {
    var w := run[|run| - 1];
    var r := w.reports[k].value;
    var w' := World(Reported(w.s, r, refused), w.reports[k := None], w.sent + SaysOf(r, refused));
    assert Answers(w, w', k, refused);
    Extended(run, w');
    longer := run + [w'];
  }
}
