/**
 * Runs of several events. The live-feed handler of a run reads the state
 * captured when Start was pressed, so what an earlier run left behind shows
 * through in a later run.
 */
module Scenarios {
  import opened JsText
  import opened Steps
  import opened Robots
  import opened Reconciler

  /**
   * A cancel followed by a restart: the new run's feed captured the cancelled
   * flag Cancel set, so its "finished" event reports a cancellation. There is
   * no success notification, every step fails and the cursor goes back to 0,
   * even when the new run completed normally.
   */
  lemma RestartAfterCancel(s: Session, c: ArmConfig, arm: Arm, reply: StartReply)
    requires s.sessionId != ""
    requires StartOutcome(AfterCancel(s), c, arm, reply).Launched?
    ensures var view := StartOutcome(AfterCancel(s), c, arm, reply).feed;
            var r := AfterMessage(AfterStart(AfterCancel(s), c, arm, reply), view, StatusMsg("finished"));
            && !FinishNotifies(view)
            && AllAre(r.steps, Failed) && r.cursor == 0 && !r.calibrating
  {
    CancelOutcome(s);
  }

  /**
   * The error rule marks the step at the cursor captured at Start, not the
   * live one: after a connection message has moved the live cursor to 1, an
   * error message fails the step the previous run's cursor pointed at and
   * leaves step 1 in progress.
   */
  lemma StaleErrorTarget(s: Session, c: ArmConfig, arm: Arm, reply: StartReply, connect: string, error: string)
    requires StartOutcome(s, c, arm, reply).Launched?
    requires s.steps != []
    requires ClassifyOutput(Clean(connect)) == ConnectRule
    requires ClassifyOutput(Clean(error)) == ErrorRule
    ensures var view := StartOutcome(s, c, arm, reply).feed;
            var started := AfterStart(s, c, arm, reply);
            var r := AfterOutput(AfterOutput(started, view, connect), view, error);
            && r.cursor == 1
            && (0 <= s.cursor < |r.steps| ==> r.steps[s.cursor].status == Failed)
            && (s.cursor != 1 && 1 < |r.steps| ==> r.steps[1].status == InProgress)
  {
    var view := StartOutcome(s, c, arm, reply).feed;
    var started := AfterStart(s, c, arm, reply);
    var mid := AfterOutput(started, view, connect);
    OutputConnect(started, view, connect);
    OutputError(mid, view, error);
  }

  /** An accepted start: a fresh four-step run under the new session id, no send in flight. */
  lemma StartAccepted(s: Session, c: ArmConfig, arm: Arm, id: string)
    requires StartRefusal(c, arm, s.backend).None?
    ensures var r := AfterStart(s, c, arm, StartOk(id));
            && |r.steps| == 4 && r.sessionId == id && r.sending == s.sending && r.calibrating
            && StartOutcome(s, c, arm, StartOk(id)) == Launched(Capture(s))
  {
    TemplateSteps(SelectedRobotType(RobotTypeOf(c, arm)).value);
  }

  /** An output message leaves the length, session, in-flight flag and running flag alone. */
  lemma OutputKeeps(s: Session, view: FeedView, raw: string)
    ensures var r := AfterOutput(s, view, raw);
            && |r.steps| == |s.steps| && r.sessionId == s.sessionId && r.sending == s.sending
            && r.calibrating == s.calibrating
  {
  }

  /**
   * A run from a page whose step list holds a template and with no send in
   * flight: a connection message, the move-all-joints prompt, Continue, and a
   * completion message leave every step completed, the cursor on the last
   * step, nobody waiting; the process still counts as running until its
   * "finished" event.
   */
  lemma HappyRun(s: Session, c: ArmConfig, arm: Arm, id: string, connect: string, moveAll: string, done: string)
    requires Shaped(s.steps) && s.steps != [] && !s.sending && id != ""
    requires StartRefusal(c, arm, s.backend).None?
    requires ClassifyOutput(Clean(connect)) == ConnectRule
    requires ClassifyOutput(Clean(moveAll)) == MoveAllRule
    requires ClassifyOutput(Clean(done)) == CompletionRule && !Includes(Clean(done), CancelledPhrase)
    ensures var view := Capture(s);
            var s1 := AfterStart(s, c, arm, StartOk(id));
            var s2 := AfterOutput(AfterOutput(s1, view, connect), view, moveAll);
            var s3 := AfterContinueReply(AfterContinuePressed(s2), ContinueRequest(s2), InputOk(true));
            var r := AfterOutput(s3, view, done);
            && StartOutcome(s, c, arm, StartOk(id)) == Launched(view)
            && s2.waiting && s2.cursor == 2 && s3.cursor == 3
            && AllAre(r.steps, Completed) && r.cursor == |r.steps| - 1 && !r.waiting && r.calibrating
  {
    var view := Capture(s);
    assert |view.steps| == 4;
    var s1 := AfterStart(s, c, arm, StartOk(id));
    StartAccepted(s, c, arm, id);
    var s1a := AfterOutput(s1, view, connect);
    OutputKeeps(s1, view, connect);
    var s2 := AfterOutput(s1a, view, moveAll);
    OutputKeeps(s1a, view, moveAll);
    OutputMoveAll(s1a, view, moveAll);
    var p := AfterContinuePressed(s2);
    var req := ContinueRequest(s2);
    assert req == ContinueView(2, 4);
    ContinueReplyOutcome(p, req, InputOk(true));
    var s3 := AfterContinueReply(p, req, InputOk(true));
    OutputCompletion(s3, view, done);
    OutputKeeps(s3, view, done);
  }
}
