/**
 * The calibration page as an object: its React state hooks and the poll-timer
 * ref become fields, and each handler becomes a method that updates them in
 * the handler's own order. Every method is proved to produce exactly the
 * state the matching transition of module Reconciler describes, so the
 * properties proved there hold of the page, and every method keeps the step
 * list shaped like a template.
 */
module Page {
  import opened JsText
  import opened Steps
  import opened Robots
  import opened Reconciler

  class CalibrationPage {
    var steps: seq<Step>
    var cursor: int
    var calibrating: bool
    var waiting: bool
    var cancelled: bool
    var sending: bool
    var sessionId: string
    var output: string
    var backend: Reachability
    var hasFeed: bool
    var monitoring: bool

    /** The page's fields as a session value. */
    function State(): Session
      reads this
    {
      Session(steps, cursor, calibrating, waiting, cancelled, sending, sessionId, output,
              backend, hasFeed, monitoring)
    }

    ghost predicate Valid()
      reads this
    {
      Shaped(steps)
    }

    /** The page as first rendered: no steps, no session, backend state unknown. */
    constructor()
      ensures State() == Initial
      ensures Valid()
    {
      steps, cursor := [], 0;
      calibrating, waiting, cancelled, sending := false, false, false, false;
      sessionId, output := "", "";
      backend := Unknown;
      hasFeed, monitoring := false, false;
    }

    /** `prev.map` advancing step `i`: see `Steps.Advance`. */
    method AdvanceSteps(i: int)
      requires Valid()
      modifies this
      ensures Valid()
      ensures State() == old(State()).(steps := Advance(old(steps), i))
    {
      ghost var before := steps;
      steps := Advance(steps, i);
      ShapedKept(steps, before);
    }

    /** `prev.map` giving every step status `st`: see `Steps.MarkAll`. */
    method MarkAllSteps(st: Status)
      requires Valid()
      modifies this
      ensures Valid()
      ensures State() == old(State()).(steps := MarkAll(old(steps), st))
    {
      ghost var before := steps;
      steps := MarkAll(steps, st);
      ShapedKept(steps, before);
    }

    /** `prev.map` giving step `i` status `st`: see `Steps.MarkAt`. */
    method MarkStep(i: int, st: Status)
      requires Valid()
      modifies this
      ensures Valid()
      ensures State() == old(State()).(steps := MarkAt(old(steps), i, st))
    {
      ghost var before := steps;
      steps := MarkAt(steps, i, st);
      ShapedKept(steps, before);
    }

    /** `checkBackendConnection`, with the health request's outcome as a parameter. */
    method Probe(reply: HealthReply)
      requires Valid()
      modifies this
      ensures Valid()
      ensures State() == AfterProbe(old(State()), reply)
    {
      match reply {
        case HealthResponded(ok) =>
          if ok {
            backend := Reachable;
          } else {
            backend := Unreachable;
          }
        case HealthThrew =>
          backend := Unreachable;
      }
    }

    /** The robot-type effect: load a copy of the new type's template, if it has one. */
    method RobotTypeChanged(robotType: string)
      requires Valid()
      modifies this
      ensures Valid()
      ensures State() == AfterRobotTypeChange(old(State()), robotType)
    {
      ghost var s0 := State();
      var selected := SelectedRobotType(robotType);
      if selected.Some? {
        steps := selected.value.steps;
      }
      RobotTypeChangeKeepsShape(s0, robotType);
    }

    /**
     * `startCalibration` for the selected arm, with the start request's outcome
     * as a parameter. A launched run returns the view its feed handler captured.
     */
    method Start(c: ArmConfig, arm: Arm, reply: StartReply) returns (result: StartResult)
      requires Valid()
      modifies this
      ensures Valid()
      ensures State() == AfterStart(old(State()), c, arm, reply)
      ensures result == StartOutcome(old(State()), c, arm, reply)
    {
      var refusal := CheckStart(c, arm);
      if refusal.Some? {
        return Refused(refusal.value);
      }
      var selected := SelectedRobotType(RobotTypeOf(c, arm));
      TemplateSteps(selected.value);
      var feed := FeedView(steps, cursor, cancelled, output, calibrating);
      Reset(selected.value);
      ApplyStartReply(c, arm, reply);
      result := if reply.StartOk? then Launched(feed) else StartFailed;
    }

    /** The part of `startCalibration` after its request returned. */
    method ApplyStartReply(c: ArmConfig, arm: Arm, reply: StartReply)
      modifies this
      ensures State() == AfterStartReply(old(State()), c, arm, reply)
    {
      match reply {
        case StartOk(id) =>
          sessionId := id;
          output := StartedMessage(c, arm, id);
          hasFeed := true;
        case _ =>
          calibrating := false;
      }
    }

    /** The checks `startCalibration` makes before anything changes, in its order. */
    method CheckStart(c: ArmConfig, arm: Arm) returns (refusal: Option<Refusal>)
      ensures refusal == StartRefusal(c, arm, backend)
    {
      var port, robotType, robotId := PortOf(c, arm), RobotTypeOf(c, arm), RobotIdOf(c, arm);
      if port == "" {
        return Some(NoPort);
      }
      if robotType == "" {
        return Some(NoRobotType);
      }
      if robotId == "" {
        return Some(NoRobotId);
      }
      if SelectedRobotType(robotType).None? {
        return Some(Unsupported);
      }
      if backend != Reachable {
        return Some(BackendDown);
      }
      return None;
    }

    /** The reset a start performs before its request: steps from the template, all pending. */
    method Reset(t: RobotTemplate)
      requires t.steps == ArmSteps
      modifies this
      ensures Valid()
      ensures State() == old(State()).(calibrating := true, cursor := 0, output := "", cancelled := false,
                                        steps := MarkAll(t.steps, Pending))
    {
      calibrating := true;
      cursor := 0;
      output := "";
      cancelled := false;
      steps := MarkAll(t.steps, Pending);
    }

    /** The output branch of `ws.onmessage`, reading the captured `view`. */
    method OnOutput(view: FeedView, raw: string)
      requires Valid()
      modifies this
      ensures Valid()
      ensures State() == AfterOutput(old(State()), view, raw)
    {
      ghost var s0 := State();
      var clean := Clean(raw);
      ShowOutput(clean);
      ghost var s1 := State();
      if |view.steps| > 0 {
        var rule := ClassifyOutput(clean);
        ApplyStepRule(view, rule, clean);
        assert State() == ApplyRule(s1, view, rule, clean);
        OutputByRule(s0, view, raw);
      } else {
        assert State() == s1;
      }
    }

    /** Shows the cleaned text, then runs waiting detection on it. */
    method ShowOutput(clean: string)
      modifies this
      ensures State() == old(State()).(output := clean, waiting := WaitingAfter(clean, old(waiting)))
    {
      output := clean;
      var lower := Lower(clean);
      if WaitPrompt(lower) {
        waiting := true;
      } else if ClearWaitPhrase(clean) {
        waiting := false;
      }
    }

    /**
     * The step update of the output branch, for the rule the text triggers
     * (`Reconciler.ClassifyChain` shows that classifying first is the source's
     * if / else-if chain).
     */
    method ApplyStepRule(view: FeedView, rule: OutputRule, clean: string)
      requires Valid() && |view.steps| > 0
      modifies this
      ensures Valid()
      ensures State() == ApplyRule(old(State()), view, rule, clean)
    {
      match rule {
        case ConnectRule =>
          AdvanceSteps(0);
          cursor := 1;
        case MoveTestRule =>
          AdvanceSteps(0);
          cursor := 1;
        case MoveAllRule =>
          AdvanceSteps(1);
          cursor := 2;
        case CompletionRule =>
          Complete(view, clean);
        case ErrorRule =>
          MarkStep(view.cursor, Failed);
        case NoRule =>
      }
    }

    /** The completion rule: every step fails on a cancellation, else every step completes. */
    method Complete(view: FeedView, clean: string)
      requires Valid() && |view.steps| > 0
      modifies this
      ensures Valid()
      ensures State() == ApplyRule(old(State()), view, CompletionRule, clean)
    {
      if Includes(clean, CancelledPhrase) {
        MarkAllSteps(Failed);
        cursor := 0;
      } else {
        MarkAllSteps(Completed);
        cursor := |view.steps| - 1;
      }
      waiting := false;
    }

    /** The "finished" status branch of `ws.onmessage`; `notified` is the success notification. */
    method OnFinished(view: FeedView) returns (notified: bool)
      requires Valid()
      modifies this
      ensures Valid()
      ensures State() == AfterFinished(old(State()), view)
      ensures notified == FinishNotifies(view)
    {
      calibrating := false;
      waiting := false;
      if view.cancelled || Includes(view.output, CancelledPhrase) {
        MarkAllSteps(Failed);
        cursor := 0;
        notified := false;
      } else {
        MarkAllSteps(Completed);
        cursor := |view.steps| - 1;
        notified := true;
      }
    }

    /**
     * `ws.onmessage`: dispatch on the message type. `checkFiles` says whether
     * the handler goes on to `checkCalibrationFiles()`.
     */
    method OnMessage(view: FeedView, m: FeedMessage) returns (notified: bool, checkFiles: bool)
      requires Valid()
      modifies this
      ensures Valid()
      ensures State() == AfterMessage(old(State()), view, m)
      ensures checkFiles <==> m == StatusMsg("finished")
      ensures notified <==> checkFiles && FinishNotifies(view)
    {
      notified, checkFiles := false, false;
      match m {
        case OutputMsg(text) =>
          OnOutput(view, text);
        case StatusMsg(state) =>
          if state == "finished" {
            notified := OnFinished(view);
            checkFiles := true;
          }
        case ErrorMsg(_) =>
        case OtherMsg =>
      }
    }

    /** Pressing Continue: returns the request it sends, if any. */
    method PressContinue() returns (req: Option<ContinueView>)
      requires Valid()
      modifies this
      ensures Valid()
      ensures State() == AfterContinuePressed(old(State()))
      ensures req.Some? <==> ContinueAllowed(old(State()))
      ensures req.Some? ==> req.value == ContinueRequest(old(State()))
    {
      if sessionId == "" || sending {
        return None;
      }
      sending := true;
      req := Some(ContinueView(cursor, |steps|));
    }

    /** The reply to a Continue request `req`; `finally` clears the in-flight flag. */
    method ContinueReplied(req: ContinueView, reply: InputReply)
      requires Valid()
      modifies this
      ensures Valid()
      ensures State() == AfterContinueReply(old(State()), req, reply)
    {
      if reply == InputOk(true) {
        waiting := false;
        output := EnterSentInfo;
        AdvanceSteps(req.cursor);
        if req.cursor + 1 < req.count {
          cursor := req.cursor + 1;
        }
      }
      sending := false;
    }

    /** `handleCancel`, with the stop request's outcome as a parameter. */
    method Cancel(reply: StopReply) returns (confirmed: bool)
      requires Valid()
      modifies this
      ensures Valid()
      ensures State() == AfterCancel(old(State()))
      ensures confirmed <==> old(sessionId) != "" && StopConfirmed(reply)
    {
      if sessionId == "" {
        return false;
      }
      cancelled := true;
      hasFeed := false;
      confirmed := reply == StopOk(true);
      calibrating := false;
      waiting := false;
      MarkAllSteps(Failed);
      cursor := 0;
      output := CancelledInfo;
      monitoring := false;
    }

    /** `monitorCalibrationProcess`: record the poll timer. */
    method StartMonitor()
      requires Valid()
      modifies this
      ensures Valid()
      ensures State() == AfterMonitorStarted(old(State()))
    {
      monitoring := true;
    }

    /** One `checkStatus` poll, reading the captured `view`. */
    method MonitorTick(view: FeedView, reply: StatusReply) returns (notified: bool, checkFiles: bool)
      requires Valid()
      modifies this
      ensures Valid()
      ensures State() == AfterMonitorTick(old(State()), view, reply)
      ensures checkFiles == MonitorFinishes(view, reply)
      ensures notified == MonitorNotifies(view, reply)
    {
      notified, checkFiles := false, false;
      match reply {
        case StatusOk(running, isWaiting) =>
          waiting := isWaiting;
          if !running && view.calibrating {
            calibrating := false;
            waiting := false;
            monitoring := false;
            notified := !view.cancelled && !Includes(view.output, CancelledPhrase);
            checkFiles := true;
          }
        case _ =>
      }
    }

    /** `checkCalibrationFiles(retryCount)`; `retry` says whether another check is scheduled. */
    method CheckCalibrationFiles(retryCount: nat, reply: FileReply) returns (retry: bool)
      requires Valid()
      modifies this
      ensures Valid()
      ensures State() == old(State()).(output := FileCheck(retryCount, reply).message)
      ensures retry == FileCheck(retryCount, reply).retry
    {
      var r := FileCheck(retryCount, reply);
      output := r.message;
      retry := r.retry;
    }
  }
}
