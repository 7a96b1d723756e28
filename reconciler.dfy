/**
 * The calibration session as a value, and the reconciler's transitions over it:
 * what the page does to its session state on each user action, backend reply
 * and live-feed message. The page class (module Page) performs these updates
 * field by field and is proved against them.
 *
 * The live-feed handler is a closure created when a calibration starts; it
 * reads the step list, cursor, cancellation flag, output text and running flag
 * of the render in which the Start button was pressed, that is, the state
 * BEFORE the start reset them. `FeedView` is that captured state; the
 * transitions take it as a parameter next to the live session they update.
 */
module Reconciler {
  import opened JsText
  import opened Steps
  import opened Robots

  // ---------------------------------------------------------------- phrases

  const CancelledPhrase := "Calibration cancelled by user"

  /** Prompts that mean the process waits for Enter; matched against the lower-cased text. */
  predicate WaitPrompt(lower: string) {
    || Includes(lower, "press enter....")
    || Includes(lower, "press enter to stop")
    || Includes(lower, "press enter to continue")
    || Includes(lower, "press enter")
    || (Includes(lower, "move test") && Includes(lower, "middle of its range"))
    || (Includes(lower, "move all joints") && Includes(lower, "entire ranges"))
  }

  /** Phrases that clear the waiting flag when no prompt is present (case-sensitive). */
  predicate ClearWaitPhrase(s: string) {
    || Includes(s, "Calibration completed successfully")
    || Includes(s, "Process finished")
    || Includes(s, "Calibration completed!")
    || Includes(s, "exit code 0")
    || Includes(s, "calibration files saved")
    || Includes(s, "Calibration saved to")
  }

  predicate ConnectionPhrase(s: string) {
    || Includes(s, "Connected to robot")
    || Includes(s, "Connection established")
    || Includes(s, "Robot connected")
    || Includes(s, "Starting calibration")
    || Includes(s, "Calibration started for")
  }

  predicate MoveTestPhrase(s: string) {
    Includes(s, "Move test") && Includes(s, "middle of its range")
  }

  predicate MoveAllPhrase(s: string) {
    Includes(s, "Move all joints") && Includes(s, "entire ranges")
  }

  /** The completion rule's phrases: the clearing phrases plus two "Calibration data" ones. */
  predicate CompletionPhrase(s: string) {
    || Includes(s, "Calibration data collected")
    || Includes(s, "Calibration data saved")
    || Includes(s, "Calibration saved to")
    || Includes(s, "Calibration completed successfully")
    || Includes(s, "Process finished")
    || Includes(s, "Calibration completed!")
    || Includes(s, "exit code 0")
    || Includes(s, "calibration files saved")
  }

  predicate ErrorPhrase(s: string) {
    || Includes(s, "Error")
    || Includes(s, "Failed")
    || Includes(s, "Exception")
    || Includes(s, "exit code 1")
  }

  /** The three longer "press enter" prompts add nothing: "press enter" alone decides. */
  lemma WaitPromptSimplified(lower: string)
    ensures WaitPrompt(lower) <==>
              || Includes(lower, "press enter")
              || (Includes(lower, "move test") && Includes(lower, "middle of its range"))
              || (Includes(lower, "move all joints") && Includes(lower, "entire ranges"))
  {
    var p := "press enter";
    var p1, p2, p3 := "press enter....", "press enter to stop", "press enter to continue";
    assert p1[..|p|] == p && p2[..|p|] == p && p3[..|p|] == p;
    if Includes(lower, p1) { IncludesTransitive(lower, p1, p); }
    if Includes(lower, p2) { IncludesTransitive(lower, p2, p); }
    if Includes(lower, p3) { IncludesTransitive(lower, p3, p); }
  }

  /** Every phrase that clears the waiting flag is also a completion phrase. */
  lemma ClearWaitIsCompletion(s: string)
    ensures ClearWaitPhrase(s) ==> CompletionPhrase(s)
  {
  }

  /**
   * The converse fails: a text with "Calibration data collected" and without
   * the letters m, P, x, f and v (the phrase itself is one) is a completion
   * phrase that does not clear the waiting flag by itself.
   */
  lemma CollectedDoesNotClear(s: string)
    requires Includes(s, "Calibration data collected")
    requires 'm' !in s && 'P' !in s && 'x' !in s && 'f' !in s && 'v' !in s
    ensures CompletionPhrase(s)
    ensures !ClearWaitPhrase(s)
  {
    MissingCharExcludes(s, "Calibration completed successfully", 'm');
    MissingCharExcludes(s, "Process finished", 'P');
    MissingCharExcludes(s, "Calibration completed!", 'm');
    MissingCharExcludes(s, "exit code 0", 'x');
    MissingCharExcludes(s, "calibration files saved", 'f');
    MissingCharExcludes(s, "Calibration saved to", 'v');
  }

  /**
   * The move prompts are recognised case-insensitively: text that fires the
   * (case-sensitive) "Move test" or "Move all joints" step rule is also a wait prompt.
   */
  lemma MovePromptsWait(s: string)
    ensures MoveTestPhrase(s) ==> WaitPrompt(Lower(s))
    ensures MoveAllPhrase(s) ==> WaitPrompt(Lower(s))
  {
    var mt, mid, ma, ent := "Move test", "middle of its range", "Move all joints", "entire ranges";
    assert Lower(mt) == "move test";
    assert Lower(mid) == mid;
    assert Lower(ma) == "move all joints";
    assert Lower(ent) == ent;
    if MoveTestPhrase(s) {
      LowerKeepsIncludes(s, mt);
      LowerKeepsIncludes(s, mid);
    }
    if MoveAllPhrase(s) {
      LowerKeepsIncludes(s, ma);
      LowerKeepsIncludes(s, ent);
    }
  }

  // ------------------------------------------------------ ordered step rules

  /** The step-transition rules of an output message. */
  datatype OutputRule = ConnectRule | MoveTestRule | MoveAllRule | CompletionRule | ErrorRule | NoRule

  predicate Fires(rule: OutputRule, s: string) {
    match rule
    case ConnectRule => ConnectionPhrase(s)
    case MoveTestRule => MoveTestPhrase(s)
    case MoveAllRule => MoveAllPhrase(s)
    case CompletionRule => CompletionPhrase(s)
    case ErrorRule => ErrorPhrase(s)
    case NoRule => false
  }

  /** The rules in priority order. */
  const RuleOrder: seq<OutputRule> := [ConnectRule, MoveTestRule, MoveAllRule, CompletionRule, ErrorRule]

  /** The first rule of `rules` that fires on `s`, or `NoRule`. */
  function FirstMatch(rules: seq<OutputRule>, s: string): OutputRule {
    if rules == [] then NoRule
    else if Fires(rules[0], s) then rules[0]
    else FirstMatch(rules[1..], s)
  }

  /**
   * First match wins: the result is `NoRule` exactly when no rule fires, and
   * otherwise a rule that fires and is preceded only by rules that do not.
   */
  lemma {:induction false} FirstMatchSpec(rules: seq<OutputRule>, s: string)
    requires NoRule !in rules
    ensures FirstMatch(rules, s) == NoRule <==> forall k :: 0 <= k < |rules| ==> !Fires(rules[k], s)
    ensures FirstMatch(rules, s) != NoRule ==>
              exists k :: 0 <= k < |rules| && rules[k] == FirstMatch(rules, s) && Fires(rules[k], s) &&
                          forall j :: 0 <= j < k ==> !Fires(rules[j], s)
    decreases |rules|
  {
    if rules != [] && !Fires(rules[0], s) {
      var r := FirstMatch(rules[1..], s);
      FirstMatchSpec(rules[1..], s);
      assert forall k :: 1 <= k < |rules| ==> rules[k] == rules[1..][k - 1];
      if r != NoRule {
        var k :| 0 <= k < |rules[1..]| && rules[1..][k] == r && Fires(rules[1..][k], s) &&
                 forall j :: 0 <= j < k ==> !Fires(rules[1..][j], s);
        assert rules[k + 1] == r;
      }
    } else if rules != [] {
      assert rules[0] == FirstMatch(rules, s);
    }
  }

  /** The one rule an output message triggers (first match wins). */
  function ClassifyOutput(s: string): OutputRule {
    FirstMatch(RuleOrder, s)
  }

  /** First match over the ordered rules is the source's if / else-if chain. */
  lemma ClassifyChain(s: string)
    ensures ClassifyOutput(s) ==
              if ConnectionPhrase(s) then ConnectRule
              else if MoveTestPhrase(s) then MoveTestRule
              else if MoveAllPhrase(s) then MoveAllRule
              else if CompletionPhrase(s) then CompletionRule
              else if ErrorPhrase(s) then ErrorRule
              else NoRule
  {
    var r := ClassifyOutput(s);
    FirstMatchSpec(RuleOrder, s);
    assert RuleOrder[0] == ConnectRule && RuleOrder[1] == MoveTestRule && RuleOrder[2] == MoveAllRule;
    assert RuleOrder[3] == CompletionRule && RuleOrder[4] == ErrorRule;
    if r != NoRule {
      var k :| 0 <= k < |RuleOrder| && RuleOrder[k] == r && Fires(r, s) &&
               forall j :: 0 <= j < k ==> !Fires(RuleOrder[j], s);
      assert k >= 1 ==> !Fires(RuleOrder[0], s);
      assert k >= 2 ==> !Fires(RuleOrder[1], s);
      assert k >= 3 ==> !Fires(RuleOrder[2], s);
      assert k >= 4 ==> !Fires(RuleOrder[3], s);
    } else {
      assert !Fires(RuleOrder[0], s) && !Fires(RuleOrder[1], s) && !Fires(RuleOrder[2], s);
      assert !Fires(RuleOrder[3], s) && !Fires(RuleOrder[4], s);
    }
  }

  /**
   * The rule applied to a message is the first of connection, move test, move
   * all joints, completion and error whose phrases it contains; a later rule
   * applies only when no earlier one does, and text containing none is unmatched.
   */
  lemma RulePrecedence(s: string)
    ensures ClassifyOutput(s) == ConnectRule <==> ConnectionPhrase(s)
    ensures ClassifyOutput(s) == MoveTestRule <==> !ConnectionPhrase(s) && MoveTestPhrase(s)
    ensures ClassifyOutput(s) == MoveAllRule <==>
              !ConnectionPhrase(s) && !MoveTestPhrase(s) && MoveAllPhrase(s)
    ensures ClassifyOutput(s) == CompletionRule <==>
              !ConnectionPhrase(s) && !MoveTestPhrase(s) && !MoveAllPhrase(s) && CompletionPhrase(s)
    ensures ClassifyOutput(s) == ErrorRule <==>
              !ConnectionPhrase(s) && !MoveTestPhrase(s) && !MoveAllPhrase(s) &&
              !CompletionPhrase(s) && ErrorPhrase(s)
    ensures ClassifyOutput(s) == NoRule <==>
              !ConnectionPhrase(s) && !MoveTestPhrase(s) && !MoveAllPhrase(s) &&
              !CompletionPhrase(s) && !ErrorPhrase(s)
  {
    ClassifyChain(s);
  }

  // --------------------------------------------------------------- session

  datatype Reachability = Unknown | Reachable | Unreachable

  /**
   * The page's session state: the step list and cursor (`currentStep`),
   * `isCalibrating`, `waitingForUser`, `isCancelled`, `isSendingInput`,
   * `sessionId`, `calibrationOutput`, `backendConnected`, whether a live feed
   * is held (`websocket !== null`) and whether a poll timer is recorded
   * (`monitoringIntervalRef.current !== null`).
   */
  datatype Session = Session(
    steps: seq<Step>,
    cursor: int,
    calibrating: bool,
    waiting: bool,
    cancelled: bool,
    sending: bool,
    sessionId: string,
    output: string,
    backend: Reachability,
    hasFeed: bool,
    monitoring: bool)

  /** The state of a freshly mounted page. */
  const Initial := Session([], 0, false, false, false, false, "", "", Unknown, false, false)

  /**
   * The step list is empty (before any template was loaded) or has the shape
   * of a template, that is, of `ArmSteps` (see `Robots.TemplateSteps`).
   */
  predicate Shaped(steps: seq<Step>) {
    steps == [] || SameShape(steps, ArmSteps)
  }

  lemma ShapedKept(a: seq<Step>, b: seq<Step>)
    requires Shaped(b) && SameShape(a, b)
    ensures Shaped(a)
  {
    if b != [] {
      SameShapeTransitive(a, b, ArmSteps);
    }
  }

  /** What a live-feed handler captured when its calibration was started. */
  datatype FeedView = FeedView(steps: seq<Step>, cursor: int, cancelled: bool, output: string, calibrating: bool)

  function Capture(s: Session): FeedView {
    FeedView(s.steps, s.cursor, s.cancelled, s.output, s.calibrating)
  }

  // ----------------------------------------------------------- connectivity

  /** The health request: a response with its `ok` flag, or a thrown fetch. */
  datatype HealthReply = HealthResponded(ok: bool) | HealthThrew

  /** `checkBackendConnection`: reachable only on an ok response. */
  function AfterProbe(s: Session, reply: HealthReply): (r: Session)
    ensures r.backend == Reachable <==> reply == HealthResponded(true)
    ensures r.backend != Unknown
    ensures r == s.(backend := r.backend)
  {
    s.(backend := if reply == HealthResponded(true) then Reachable else Unreachable)
  }

  // -------------------------------------------------------------- templates

  /** The effect run when the robot type changes: load a copy of its template. */
  function AfterRobotTypeChange(s: Session, robotType: string): (r: Session)
    ensures SelectedRobotType(robotType).Some? ==> r.steps == SelectedRobotType(robotType).value.steps
    ensures SelectedRobotType(robotType).Some? ==>
              |r.steps| == 4 && SameShape(r.steps, ArmSteps) && AllAre(r.steps, Pending)
    ensures SelectedRobotType(robotType).None? ==> r == s
    ensures r == s.(steps := r.steps)
  {
    match SelectedRobotType(robotType)
    case Some(t) =>
      TemplateSteps(t);
      s.(steps := t.steps)
    case None => s
  }

  // ------------------------------------------------------------------ start

  datatype Arm = Leader | Follower

  /** The arm configuration held by the shared store. */
  datatype ArmConfig = ArmConfig(
    leaderPort: string, followerPort: string,
    leaderRobotType: string, followerRobotType: string,
    leaderRobotId: string, followerRobotId: string)

  function PortOf(c: ArmConfig, arm: Arm): string {
    if arm == Leader then c.leaderPort else c.followerPort
  }

  function RobotTypeOf(c: ArmConfig, arm: Arm): string {
    if arm == Leader then c.leaderRobotType else c.followerRobotType
  }

  function RobotIdOf(c: ArmConfig, arm: Arm): string {
    if arm == Leader then c.leaderRobotId else c.followerRobotId
  }

  /** Why a start is refused before any request is sent. */
  datatype Refusal = NoPort | NoRobotType | NoRobotId | Unsupported | BackendDown

  /** The start preconditions, checked in order; the first that fails is reported. */
  function StartRefusal(c: ArmConfig, arm: Arm, backend: Reachability): Option<Refusal> {
    if PortOf(c, arm) == "" then Some(NoPort)
    else if RobotTypeOf(c, arm) == "" then Some(NoRobotType)
    else if RobotIdOf(c, arm) == "" then Some(NoRobotId)
    else if SelectedRobotType(RobotTypeOf(c, arm)).None? then Some(Unsupported)
    else if backend != Reachable then Some(BackendDown)
    else None
  }

  /**
   * A start goes ahead exactly when a port, a robot type and a robot id are
   * configured, the type has a template and the backend is known reachable
   * (unknown counts as not reachable); otherwise the FIRST failing check in
   * the order port, type, id, template, backend is the one reported.
   */
  lemma StartRefusalOrder(c: ArmConfig, arm: Arm, backend: Reachability)
    ensures StartRefusal(c, arm, backend) == None <==>
              PortOf(c, arm) != "" && RobotTypeOf(c, arm) != "" && RobotIdOf(c, arm) != "" &&
              SelectedRobotType(RobotTypeOf(c, arm)).Some? && backend == Reachable
    ensures StartRefusal(c, arm, backend) == Some(NoPort) <==> PortOf(c, arm) == ""
    ensures StartRefusal(c, arm, backend) == Some(NoRobotType) <==>
              PortOf(c, arm) != "" && RobotTypeOf(c, arm) == ""
    ensures StartRefusal(c, arm, backend) == Some(NoRobotId) <==>
              PortOf(c, arm) != "" && RobotTypeOf(c, arm) != "" && RobotIdOf(c, arm) == ""
    ensures StartRefusal(c, arm, backend) == Some(Unsupported) <==>
              PortOf(c, arm) != "" && RobotTypeOf(c, arm) != "" && RobotIdOf(c, arm) != "" &&
              SelectedRobotType(RobotTypeOf(c, arm)).None?
    ensures StartRefusal(c, arm, backend) == Some(BackendDown) <==>
              PortOf(c, arm) != "" && RobotTypeOf(c, arm) != "" && RobotIdOf(c, arm) != "" &&
              SelectedRobotType(RobotTypeOf(c, arm)).Some? && backend != Reachable
  {
  }

  /** A failed probe refuses every start that got past the configuration checks. */
  lemma ProbeGatesStart(s: Session, reply: HealthReply, c: ArmConfig, arm: Arm)
    ensures StartRefusal(c, arm, AfterProbe(s, reply).backend) == None <==>
              reply == HealthResponded(true) && StartRefusal(c, arm, Reachable) == None
    ensures reply != HealthResponded(true) ==> StartRefusal(c, arm, AfterProbe(s, reply).backend).Some?
  {
  }

  /** The start request: an ok response carrying a session id, a non-ok response, or a throw. */
  datatype StartReply = StartOk(sessionId: string) | StartNotOk | StartThrew

  /** What pressing Start leads to; `Launched` carries the view its feed handler captured. */
  datatype StartResult = Refused(reason: Refusal) | StartFailed | Launched(feed: FeedView)

  function Role(arm: Arm): string {
    if arm == Leader then "teleop" else "robot"
  }

  /** The output line shown once the backend accepted the start. */
  const StartedLead := "Calibration started with session ID: "
  const CommandLead := "\nCommand: python -m lerobot.calibrate --"

  function StartedMessage(c: ArmConfig, arm: Arm, id: string): (r: string)
    ensures StartsWith(r, StartedLead + id)
  {
    var command := Concat([CommandLead, Role(arm), ".type=", RobotTypeOf(c, arm),
                           " --", Role(arm), ".port=", PortOf(c, arm),
                           " --", Role(arm), ".id=", RobotIdOf(c, arm)]);
    StartsWithAppend(StartedLead + id, command);
    StartedLead + id + command
  }

  /** `startCalibration`'s effect on the session. */
  function AfterStart(s: Session, c: ArmConfig, arm: Arm, reply: StartReply): (r: Session)
    ensures StartRefusal(c, arm, s.backend).Some? ==> r == s
    ensures StartRefusal(c, arm, s.backend).None? ==>
              var t := SelectedRobotType(RobotTypeOf(c, arm)).value;
              && SameShape(r.steps, t.steps) && AllAre(r.steps, Pending)
              && r.cursor == 0 && !r.cancelled
              && (r.calibrating <==> reply.StartOk?)
              && (reply.StartOk? ==> r.sessionId == reply.sessionId && r.hasFeed)
              && (!reply.StartOk? ==> r.sessionId == s.sessionId && r.hasFeed == s.hasFeed && r.output == "")
              && r.waiting == s.waiting && r.sending == s.sending
              && r.backend == s.backend && r.monitoring == s.monitoring
  {
    if StartRefusal(c, arm, s.backend).Some? then s
    else
      var t := SelectedRobotType(RobotTypeOf(c, arm)).value;
      var reset := s.(calibrating := true, cursor := 0, output := "", cancelled := false,
                      steps := MarkAll(t.steps, Pending));
      AfterStartReply(reset, c, arm, reply)
  }

  /** The part of a start after its request returned: record the session, or stop running. */
  function AfterStartReply(s: Session, c: ArmConfig, arm: Arm, reply: StartReply): (r: Session)
    ensures reply.StartOk? ==>
              r == s.(sessionId := reply.sessionId, output := StartedMessage(c, arm, reply.sessionId),
                      hasFeed := true)
    ensures !reply.StartOk? ==> r == s.(calibrating := false)
  {
    match reply
    case StartOk(id) => s.(sessionId := id, output := StartedMessage(c, arm, id), hasFeed := true)
    case _ => s.(calibrating := false)
  }

  /** What `startCalibration` reports; a launched feed sees the pre-start state. */
  function StartOutcome(s: Session, c: ArmConfig, arm: Arm, reply: StartReply): (r: StartResult)
    ensures StartRefusal(c, arm, s.backend).Some? ==> r == Refused(StartRefusal(c, arm, s.backend).value)
    ensures r.Launched? <==> StartRefusal(c, arm, s.backend).None? && reply.StartOk?
    ensures r.Launched? ==> r.feed == Capture(s)
  {
    match StartRefusal(c, arm, s.backend)
    case Some(why) => Refused(why)
    case None => if reply.StartOk? then Launched(Capture(s)) else StartFailed
  }

  // -------------------------------------------------------------- live feed

  /**
   * The text an output message is reduced to: carriage returns removed, then
   * the surrounding white space cut off. It holds no carriage return and
   * neither starts nor ends with white space.
   */
  function Clean(raw: string): (r: string)
    ensures TrimmedFrom(StripCR(raw), r)
    ensures '\r' !in r
    ensures r == [] || (!IsSpace(r[0]) && !IsSpace(r[|r| - 1]))
  {
    var stripped := StripCR(raw);
    var r := Trim(stripped);
    var a := |stripped| - |TrimStart(stripped)|;
    SliceExcludes(stripped, a, a + |r|, '\r');
    r
  }

  /** Waiting detection: a prompt sets the flag, else a clearing phrase clears it, else it stays. */
  function WaitingAfter(clean: string, was: bool): bool {
    if WaitPrompt(Lower(clean)) then true
    else if ClearWaitPhrase(clean) then false
    else was
  }

  /** The step update a rule makes; `s` already carries the new output text and waiting flag. */
  function ApplyRule(s: Session, view: FeedView, rule: OutputRule, clean: string): (r: Session)
    requires |view.steps| > 0
    ensures SameShape(r.steps, s.steps)
    ensures rule == NoRule ==> r == s
    ensures r.waiting == (rule != CompletionRule && s.waiting)
    ensures r == s.(steps := r.steps, cursor := r.cursor, waiting := r.waiting)
  {
    match rule
    case ConnectRule => s.(steps := Advance(s.steps, 0), cursor := 1)
    case MoveTestRule => s.(steps := Advance(s.steps, 0), cursor := 1)
    case MoveAllRule => s.(steps := Advance(s.steps, 1), cursor := 2)
    case CompletionRule =>
      if Includes(clean, CancelledPhrase) then
        s.(steps := MarkAll(s.steps, Failed), cursor := 0, waiting := false)
      else
        s.(steps := MarkAll(s.steps, Completed), cursor := |view.steps| - 1, waiting := false)
    case ErrorRule => s.(steps := MarkAt(s.steps, view.cursor, Failed))
    case NoRule => s
  }

  /** The output branch of the feed handler. */
  function AfterOutput(s: Session, view: FeedView, raw: string): (r: Session)
    ensures r.output == Clean(raw)
    ensures SameShape(r.steps, s.steps)
    ensures |view.steps| == 0 || ClassifyOutput(Clean(raw)) == NoRule ==>
              r.steps == s.steps && r.cursor == s.cursor
    ensures r.waiting == if |view.steps| > 0 && ClassifyOutput(Clean(raw)) == CompletionRule then false
                         else WaitingAfter(Clean(raw), s.waiting)
    ensures r == s.(steps := r.steps, cursor := r.cursor, waiting := r.waiting, output := r.output)
  {
    var clean := Clean(raw);
    var s1 := s.(output := clean, waiting := WaitingAfter(clean, s.waiting));
    if |view.steps| == 0 then s1 else ApplyRule(s1, view, ClassifyOutput(clean), clean)
  }

  /**
   * Waiting detection on an output message: a "press enter" prompt (in any
   * letter case) sets the flag; otherwise a clearing phrase clears it;
   * otherwise it stays — unless the completion rule fires, which clears it.
   */
  lemma OutputWaiting(s: Session, view: FeedView, raw: string)
    ensures var clean := Clean(raw);
            var r := AfterOutput(s, view, raw);
            if |view.steps| > 0 && ClassifyOutput(clean) == CompletionRule then !r.waiting
            else if Includes(Lower(clean), "press enter") then r.waiting
            else if WaitPrompt(Lower(clean)) then r.waiting
            else if ClearWaitPhrase(clean) then !r.waiting
            else r.waiting == s.waiting
  {
    WaitPromptSimplified(Lower(Clean(raw)));
  }

  /**
   * The connection rule (and the move-test rule, which repeats it): step 0
   * completed, step 1 in progress, every other step untouched, cursor 1.
   */
  lemma OutputConnect(s: Session, view: FeedView, raw: string)
    requires |view.steps| > 0
    requires ClassifyOutput(Clean(raw)) in {ConnectRule, MoveTestRule}
    ensures var r := AfterOutput(s, view, raw);
            && (0 < |s.steps| ==> r.steps[0].status == Completed)
            && (1 < |s.steps| ==> r.steps[1].status == InProgress)
            && (forall k :: 2 <= k < |s.steps| ==> r.steps[k] == s.steps[k])
            && r.cursor == 1
            && (ClassifyOutput(Clean(raw)) == MoveTestRule ==> r.waiting)
  {
    RulePrecedence(Clean(raw));
    MovePromptsWait(Clean(raw));
  }

  /** The move-all-joints rule: step 1 completed, step 2 in progress, cursor 2, waiting for Enter. */
  lemma OutputMoveAll(s: Session, view: FeedView, raw: string)
    requires |view.steps| > 0
    requires ClassifyOutput(Clean(raw)) == MoveAllRule
    ensures var r := AfterOutput(s, view, raw);
            && (1 < |s.steps| ==> r.steps[1].status == Completed)
            && (2 < |s.steps| ==> r.steps[2].status == InProgress)
            && (forall k :: 0 <= k < |s.steps| && k != 1 && k != 2 ==> r.steps[k] == s.steps[k])
            && r.cursor == 2
            && r.waiting
  {
    RulePrecedence(Clean(raw));
    MovePromptsWait(Clean(raw));
  }

  /**
   * The completion rule: with the cancellation phrase every step fails and the
   * cursor is 0; without it every step is completed and the cursor is the last
   * index of the captured list; either way the process no longer waits.
   */
  lemma OutputCompletion(s: Session, view: FeedView, raw: string)
    requires |view.steps| > 0
    requires ClassifyOutput(Clean(raw)) == CompletionRule
    ensures var r := AfterOutput(s, view, raw);
            && !r.waiting
            && (Includes(Clean(raw), CancelledPhrase) ==> AllAre(r.steps, Failed) && r.cursor == 0)
            && (!Includes(Clean(raw), CancelledPhrase) ==>
                  AllAre(r.steps, Completed) && r.cursor == |view.steps| - 1)
  {
    var clean := Clean(raw);
    var s1 := s.(output := clean, waiting := WaitingAfter(clean, s.waiting));
    assert AfterOutput(s, view, raw) == ApplyRule(s1, view, CompletionRule, clean) by {
      OutputByRule(s, view, raw);
    }
    CompletionRuleMarks(s1, view, clean);
  }

  /** The completion rule's step update, on a state that already carries the new text. */
  lemma CompletionRuleMarks(s: Session, view: FeedView, clean: string)
    requires |view.steps| > 0
    ensures var r := ApplyRule(s, view, CompletionRule, clean);
            && !r.waiting
            && (Includes(clean, CancelledPhrase) ==> AllAre(r.steps, Failed) && r.cursor == 0)
            && (!Includes(clean, CancelledPhrase) ==> AllAre(r.steps, Completed) && r.cursor == |view.steps| - 1)
  {
  }

  /**
   * The error rule marks only the step at the CAPTURED cursor as failed; every
   * other step and the live cursor are left as they were.
   */
  lemma OutputError(s: Session, view: FeedView, raw: string)
    requires |view.steps| > 0
    requires ClassifyOutput(Clean(raw)) == ErrorRule
    ensures var r := AfterOutput(s, view, raw);
            && (0 <= view.cursor < |s.steps| ==> r.steps[view.cursor].status == Failed)
            && (forall k :: 0 <= k < |s.steps| && k != view.cursor ==> r.steps[k] == s.steps[k])
            && r.cursor == s.cursor
  {
    var r := AfterOutput(s, view, raw);
    assert r.steps == MarkAt(s.steps, view.cursor, Failed) && r.cursor == s.cursor by {
      var clean := Clean(raw);
      OutputByRule(s, view, raw);
      ErrorRuleMarks(s.(output := clean, waiting := WaitingAfter(clean, s.waiting)), view, clean);
    }
  }

  /** On a non-empty captured list, the output branch is the rule update for the cleaned text. */
  lemma OutputByRule(s: Session, view: FeedView, raw: string)
    requires |view.steps| > 0
    ensures var clean := Clean(raw);
            AfterOutput(s, view, raw) ==
              ApplyRule(s.(output := clean, waiting := WaitingAfter(clean, s.waiting)), view, ClassifyOutput(clean), clean)
  {
  }

  /** The error rule's step update, on a state that already carries the new text. */
  lemma ErrorRuleMarks(s: Session, view: FeedView, clean: string)
    requires |view.steps| > 0
    ensures var r := ApplyRule(s, view, ErrorRule, clean);
            r.steps == MarkAt(s.steps, view.cursor, Failed) && r.cursor == s.cursor
  {
  }

  /** Whether a finished run counts as cancelled: the captured flag, or the phrase in the captured output. */
  predicate FinishCancelled(view: FeedView) {
    view.cancelled || Includes(view.output, CancelledPhrase)
  }

  /** The "finished" status branch of the feed handler. */
  function AfterFinished(s: Session, view: FeedView): (r: Session)
    ensures !r.calibrating && !r.waiting && SameShape(r.steps, s.steps)
    ensures FinishCancelled(view) ==> AllAre(r.steps, Failed) && r.cursor == 0
    ensures !FinishCancelled(view) ==> AllAre(r.steps, Completed) && r.cursor == |view.steps| - 1
    ensures r == s.(steps := r.steps, cursor := r.cursor, calibrating := false, waiting := false)
  {
    var s1 := s.(calibrating := false, waiting := false);
    if FinishCancelled(view) then s1.(steps := MarkAll(s.steps, Failed), cursor := 0)
    else s1.(steps := MarkAll(s.steps, Completed), cursor := |view.steps| - 1)
  }

  /** A second "finished" event from the same feed changes nothing more. */
  lemma FinishIdempotent(s: Session, view: FeedView)
    ensures AfterFinished(AfterFinished(s, view), view) == AfterFinished(s, view)
  {
    MarkAllTwice(s.steps, Failed, Failed);
    MarkAllTwice(s.steps, Completed, Completed);
  }

  /** A message on the live feed. */
  datatype FeedMessage = OutputMsg(text: string) | StatusMsg(state: string) | ErrorMsg(text: string) | OtherMsg

  /** `ws.onmessage`: output and "finished" status messages update; anything else does not. */
  function AfterMessage(s: Session, view: FeedView, m: FeedMessage): (r: Session)
    ensures m.ErrorMsg? || m.OtherMsg? || (m.StatusMsg? && m.state != "finished") ==> r == s
    ensures SameShape(r.steps, s.steps)
    ensures r.cancelled == s.cancelled && r.sessionId == s.sessionId && r.sending == s.sending
    ensures r.backend == s.backend && r.hasFeed == s.hasFeed && r.monitoring == s.monitoring
  {
    match m
    case OutputMsg(text) => AfterOutput(s, view, text)
    case StatusMsg(state) => if state == "finished" then AfterFinished(s, view) else s
    case _ => s
  }

  /**
   * Whether a "finished" event announces success (the success notification,
   * line 395). See `FinishNotifiesCompleted`.
   */
  function FinishNotifies(view: FeedView): (b: bool)
    ensures b <==> !view.cancelled && !Includes(view.output, CancelledPhrase)
  {
    !FinishCancelled(view)
  }

  /**
   * On a non-empty list, a "finished" event announces success exactly when it
   * marks every step completed.
   */
  lemma FinishNotifiesCompleted(s: Session, view: FeedView)
    requires s.steps != []
    ensures FinishNotifies(view) <==> AllAre(AfterFinished(s, view).steps, Completed)
  {
    if !FinishNotifies(view) {
      assert AfterFinished(s, view).steps[0].status == Failed;
    }
  }

  // --------------------------------------------------------------- continue

  /** The input request: an ok response with its `success` flag, a non-ok response, or a throw. */
  datatype InputReply = InputOk(success: bool) | InputNotOk | InputThrew

  /** What the Continue handler captured when pressed: the cursor and the list's length. */
  datatype ContinueView = ContinueView(cursor: int, count: nat)

  const EnterSentInfo := "[INFO] Enter key sent to calibration process"

  /** Continue proceeds only with a session and no send in flight. */
  predicate ContinueAllowed(s: Session) {
    s.sessionId != "" && !s.sending
  }

  function ContinueRequest(s: Session): ContinueView {
    ContinueView(s.cursor, |s.steps|)
  }

  /** Pressing Continue: marks a send in flight, or does nothing at all. */
  function AfterContinuePressed(s: Session): (r: Session)
    ensures !ContinueAllowed(s) ==> r == s
    ensures ContinueAllowed(s) ==> r.sending && r == s.(sending := true)
  {
    if ContinueAllowed(s) then s.(sending := true) else s
  }

  /** A second press while a send is in flight, or with no session, changes nothing. */
  lemma ContinueGuard(s: Session)
    requires s.sending || s.sessionId == ""
    ensures AfterContinuePressed(s) == s
  {
  }

  /** The reply to the input request. */
  function AfterContinueReply(s: Session, req: ContinueView, reply: InputReply): Session {
    var s1 := s.(sending := false);
    if reply == InputOk(true) then
      s1.(waiting := false, output := EnterSentInfo, steps := Advance(s.steps, req.cursor),
          cursor := if req.cursor + 1 < req.count then req.cursor + 1 else s.cursor)
    else s1
  }

  /**
   * The in-flight flag always ends false. On a successful reply the process
   * no longer waits, the step at the captured cursor is completed and the next
   * one in progress (all others untouched), and the cursor advances only if a
   * next step exists; on any other reply nothing else changes.
   */
  lemma ContinueReplyOutcome(s: Session, req: ContinueView, reply: InputReply)
    ensures var r := AfterContinueReply(s, req, reply);
            && !r.sending && SameShape(r.steps, s.steps)
            && (reply == InputOk(true) ==>
                  && !r.waiting && r.output == EnterSentInfo
                  && (0 <= req.cursor < |s.steps| ==> r.steps[req.cursor].status == Completed)
                  && (0 <= req.cursor + 1 < |s.steps| ==> r.steps[req.cursor + 1].status == InProgress)
                  && (forall k :: 0 <= k < |s.steps| && k != req.cursor && k != req.cursor + 1 ==>
                        r.steps[k] == s.steps[k])
                  && r.cursor == (if req.cursor + 1 < req.count then req.cursor + 1 else s.cursor)
                  && r == s.(sending := false, waiting := false, output := EnterSentInfo,
                             steps := r.steps, cursor := r.cursor))
            && (reply != InputOk(true) ==> r == s.(sending := false))
  {
  }

  /**
   * Continue keeps the cursor inside the list: when the press saw a cursor in
   * bounds and nothing moved it meanwhile, the cursor after the reply is in bounds.
   */
  lemma ContinueCursorInBounds(s: Session, reply: InputReply)
    requires ContinueAllowed(s)
    requires 0 <= s.cursor < |s.steps|
    ensures var r := AfterContinueReply(AfterContinuePressed(s), ContinueRequest(s), reply);
            0 <= r.cursor < |r.steps|
            && (reply == InputOk(true) && s.cursor + 1 < |s.steps| ==> r.cursor == s.cursor + 1)
            && (reply != InputOk(true) ==> r.steps == s.steps && r.cursor == s.cursor)
  {
    ContinueReplyOutcome(AfterContinuePressed(s), ContinueRequest(s), reply);
  }

  // ----------------------------------------------------------------- cancel

  /** The stop request: an ok response with its `success` flag, a non-ok response, or a throw. */
  datatype StopReply = StopOk(success: bool) | StopNotOk | StopThrew

  const CancelledInfo := "[INFO] Calibration cancelled by user"

  /**
   * `handleCancel`: without a session nothing happens; otherwise, whatever the
   * stop request returns, the run is cancelled and torn down and every step fails.
   */
  function AfterCancel(s: Session): Session {
    if s.sessionId == "" then s
    else
      s.(cancelled := true, hasFeed := false, calibrating := false, waiting := false,
         steps := MarkAll(s.steps, Failed), cursor := 0, output := CancelledInfo, monitoring := false)
  }

  /**
   * Without a session Cancel changes nothing. Otherwise, whatever the stop
   * request returned: cancelled, not running, not waiting, every step failed,
   * cursor 0, the live feed and the poll timer dropped, and only the
   * cancellation line in the output.
   */
  lemma CancelOutcome(s: Session)
    ensures s.sessionId == "" ==> AfterCancel(s) == s
    ensures s.sessionId != "" ==>
              var r := AfterCancel(s);
              && r.cancelled && !r.calibrating && !r.waiting
              && AllAre(r.steps, Failed) && SameShape(r.steps, s.steps) && r.cursor == 0
              && !r.hasFeed && !r.monitoring && r.output == CancelledInfo
              && r.sessionId == s.sessionId && r.sending == s.sending && r.backend == s.backend
  {
  }

  /**
   * A second Cancel (the session id is kept) changes nothing more: the steps
   * already all failed stay as they are.
   */
  lemma CancelIdempotent(s: Session)
    ensures AfterCancel(AfterCancel(s)) == AfterCancel(s)
  {
    if s.sessionId != "" {
      CancelOutcome(s);
      MarkAllFixed(AfterCancel(s).steps, Failed);
    }
  }

  /** Whether the stop request confirmed the cancellation (only the notification differs). */
  function StopConfirmed(reply: StopReply): bool {
    reply == StopOk(true)
  }

  // --------------------------------------------------------- status polling

  /** The status request: an ok response with its two flags, a non-ok response, or a throw. */
  datatype StatusReply = StatusOk(isRunning: bool, isWaiting: bool) | StatusNotOk | StatusThrew

  /** `monitorCalibrationProcess`: records its poll timer. */
  function AfterMonitorStarted(s: Session): Session {
    s.(monitoring := true)
  }

  /** The poll sees the process stopped while its captured `isCalibrating` was true. */
  predicate MonitorFinishes(view: FeedView, reply: StatusReply) {
    reply.StatusOk? && !reply.isRunning && view.calibrating
  }

  /** One `checkStatus` poll. */
  function AfterMonitorTick(s: Session, view: FeedView, reply: StatusReply): (r: Session)
    ensures !reply.StatusOk? ==> r == s
    ensures reply.StatusOk? && !MonitorFinishes(view, reply) ==> r == s.(waiting := reply.isWaiting)
    ensures MonitorFinishes(view, reply) ==>
              r == s.(calibrating := false, waiting := false, monitoring := false)
    ensures r.calibrating == (s.calibrating && !MonitorFinishes(view, reply))
    ensures r.waiting == if reply.StatusOk? then reply.isWaiting && !MonitorFinishes(view, reply) else s.waiting
    ensures r.steps == s.steps && r.cursor == s.cursor && r.output == s.output
  {
    match reply
    case StatusOk(running, waiting) =>
      var s1 := s.(waiting := waiting);
      if !running && view.calibrating then s1.(calibrating := false, waiting := false, monitoring := false)
      else s1
    case _ => s
  }

  /** Whether a finishing poll announces success. */
  function MonitorNotifies(view: FeedView, reply: StatusReply): (b: bool)
    ensures b ==> MonitorFinishes(view, reply)
    ensures b <==> MonitorFinishes(view, reply) && !FinishCancelled(view)
  {
    MonitorFinishes(view, reply) && !view.cancelled && !Includes(view.output, CancelledPhrase)
  }

  /**
   * A poll that finishes the run agrees with the feed's "finished" event on the
   * running and waiting flags and on whether success is announced, but unlike
   * it leaves the steps and the cursor as they are and stops the poll timer.
   */
  lemma MonitorFinishMatchesFeed(s: Session, view: FeedView, reply: StatusReply)
    requires MonitorFinishes(view, reply)
    ensures var m, f := AfterMonitorTick(s, view, reply), AfterFinished(s, view);
            && m.calibrating == f.calibrating && m.waiting == f.waiting
            && MonitorNotifies(view, reply) == FinishNotifies(view)
            && m.steps == s.steps && m.cursor == s.cursor && !m.monitoring
  {
  }

  // ------------------------------------------------------------- file check

  datatype FileEntry = FileEntry(name: string, path: string)

  /** The file-check request: a listing, a non-ok response, or a throw. */
  datatype FileReply =
    | Listing(fileCount: int, files: seq<FileEntry>, cacheDirectory: string)
    | ListingNotOk(status: nat, statusText: string)
    | ListingThrew(error: string)

  /** The output line one check sets, and whether it schedules another check. */
  datatype FileCheckResult = FileCheckResult(message: string, retry: bool)

  /** How many further checks follow a check that found no files. */
  const MaxFileRetries: nat := 3

  /** One line of the file listing. */
  function FileLine(f: FileEntry): string {
    "  - " + f.name + " (" + f.path + ")"
  }

  /** A name or path without a line break gives a line without one. */
  lemma FileLineNoBreak(f: FileEntry)
    requires '\n' !in f.name && '\n' !in f.path
    ensures multiset(FileLine(f))['\n'] == 0
  {
    var a, b, c := "  - ", " (", ")";
    assert '\n' !in a && '\n' !in b && '\n' !in c;
    assert FileLine(f) == a + f.name + b + f.path + c;
    assert multiset(FileLine(f)) == multiset(a) + multiset(f.name) + multiset(b) + multiset(f.path) + multiset(c);
  }

  /** `files.map(f => "  - name (path)").join("\n")`: empty exactly for no files. */
  function FileLines(files: seq<FileEntry>): (r: string)
    ensures r == "" <==> files == []
  {
    if files == [] then ""
    else
      var line := FileLine(files[0]);
      assert |line| > 0;
      if |files| == 1 then line else line + "\n" + FileLines(files[1..])
  }

  /** When no name or path holds a line break, the listing has one line per file. */
  lemma {:induction false} FileLinesCount(files: seq<FileEntry>)
    requires forall k :: 0 <= k < |files| ==> '\n' !in files[k].name && '\n' !in files[k].path
    ensures multiset(FileLines(files))['\n'] == if files == [] then 0 else |files| - 1
    decreases |files|
  {
    if files != [] {
      var line := FileLine(files[0]);
      FileLineNoBreak(files[0]);
      if |files| > 1 {
        var rest := FileLines(files[1..]);
        assert forall k :: 1 <= k < |files| ==> files[1..][k - 1] == files[k];
        FileLinesCount(files[1..]);
        assert FileLines(files) == line + "\n" + rest;
        assert multiset(line + "\n" + rest) == multiset(line) + multiset("\n") + multiset(rest);
      }
    }
  }

  predicate StartsWith(s: string, p: string) {
    |p| <= |s| && s[..|p|] == p
  }

  lemma StartsWithAppend(p: string, rest: string)
    ensures StartsWith(p + rest, p)
  {
    assert (p + rest)[..|p|] == p;
  }

  predicate EndsWith(s: string, q: string) {
    |q| <= |s| && s[|s| - |q|..] == q
  }

  lemma EndsWithAppend(p: string, q: string)
    ensures EndsWith(p + q, q)
  {
    assert (p + q)[|p|..] == q;
  }

  /** A message line: its tag, fixed text, then the part read from the reply. */
  function Tagged(tag: string, text: string, tail: string): (r: string)
    ensures StartsWith(r, tag) && EndsWith(r, tail)
  {
    StartsWithAppend(tag, text + tail);
    EndsWithAppend(tag + text, tail);
    assert tag + (text + tail) == tag + text + tail;
    tag + text + tail
  }

  /** One `checkCalibrationFiles(retryCount)` request and its reply. */
  function FileCheck(retryCount: nat, reply: FileReply): (r: FileCheckResult)
    ensures r.retry <==> reply.Listing? && reply.fileCount <= 0 && retryCount < MaxFileRetries
    ensures reply.Listing? && reply.fileCount > 0 ==> StartsWith(r.message, "[SUCCESS]")
    ensures r.retry ==> StartsWith(r.message, "[INFO]")
    ensures reply.Listing? && reply.fileCount <= 0 && !r.retry ==> StartsWith(r.message, "[WARNING]")
    ensures !reply.Listing? ==> StartsWith(r.message, "[ERROR]")
    ensures reply.Listing? && reply.fileCount > 0 ==> EndsWith(r.message, FileLines(reply.files))
    ensures r.retry ==> EndsWith(r.message, Decimal(retryCount + 1) + "/3)")
    ensures reply.Listing? && reply.fileCount <= 0 && !r.retry ==> EndsWith(r.message, reply.cacheDirectory)
    ensures reply.ListingNotOk? ==> EndsWith(r.message, reply.statusText)
    ensures reply.ListingThrew? ==> EndsWith(r.message, reply.error)
  {
    match reply
    case Listing(count, files, dir) =>
      if count > 0 then
        FileCheckResult(Tagged("[SUCCESS]", " Calibration files saved:\n", FileLines(files)), false)
      else if retryCount < MaxFileRetries then
        FileCheckResult(Tagged("[INFO]", " Checking for calibration files... (attempt ",
                               Decimal(retryCount + 1) + "/3)"), true)
      else
        FileCheckResult(Tagged("[WARNING]", " No calibration files found in cache directory: ", dir), false)
    case ListingNotOk(status, text) =>
      FileCheckResult(Tagged("[ERROR]", " Failed to check calibration files: " + Decimal(status) + " ", text), false)
    case ListingThrew(error) =>
      FileCheckResult(Tagged("[ERROR]", " Failed to check calibration files: ", error), false)
  }

  /**
   * The number of requests a chain of checks starting at `retryCount` makes
   * when its successive requests get `replies[0]`, `replies[1]`, ...: the chain
   * stops at a reply that schedules no retry (or when the replies run out).
   * Started at 0, the chain makes at most 1 + 3 requests.
   */
  function FileCheckRequests(retryCount: nat, replies: seq<FileReply>): (n: nat)
    ensures n <= |replies|
    ensures retryCount <= MaxFileRetries ==> n <= MaxFileRetries + 1 - retryCount
    ensures retryCount > MaxFileRetries ==> n <= 1
    decreases |replies|
  {
    if replies == [] then 0
    else if FileCheck(retryCount, replies[0]).retry then 1 + FileCheckRequests(retryCount + 1, replies[1..])
    else 1
  }

  /** The bound is reached: four empty listings in a row take all four requests. */
  lemma EmptyListingsExhaustRetries(replies: seq<FileReply>)
    requires |replies| >= 4
    requires forall k :: 0 <= k < 4 ==> replies[k].Listing? && replies[k].fileCount <= 0
    ensures FileCheckRequests(0, replies) == 4
    ensures !FileCheck(3, replies[3]).retry
  {
    var r1 := replies[1..];
    var r2 := r1[1..];
    var r3 := r2[1..];
    assert r1[0] == replies[1] && r2[0] == replies[2] && r3[0] == replies[3];
    assert !FileCheck(3, r3[0]).retry;
    assert FileCheckRequests(3, r3) == 1;
    assert FileCheck(2, r2[0]).retry;
    assert FileCheckRequests(2, r2) == 2;
    assert FileCheck(1, r1[0]).retry;
    assert FileCheckRequests(1, r1) == 3;
    assert FileCheck(0, replies[0]).retry;
  }

  // ---------------------------------------------------- the shape invariant

  /** Starting loads a copy of a template, so the list has a template's shape again. */
  lemma StartKeepsShape(s: Session, c: ArmConfig, arm: Arm, reply: StartReply)
    requires Shaped(s.steps)
    ensures Shaped(AfterStart(s, c, arm, reply).steps)
  {
    if StartRefusal(c, arm, s.backend).None? {
      TemplateSteps(SelectedRobotType(RobotTypeOf(c, arm)).value);
    }
  }

  /** A robot-type change keeps the shape invariant. */
  lemma RobotTypeChangeKeepsShape(s: Session, robotType: string)
    requires Shaped(s.steps)
    ensures Shaped(AfterRobotTypeChange(s, robotType).steps)
  {
    if SelectedRobotType(robotType).Some? {
      TemplateSteps(SelectedRobotType(robotType).value);
    }
  }

  /** Feed messages and status polls keep the shape invariant. */
  lemma FeedKeepsShape(s: Session, view: FeedView, m: FeedMessage, st: StatusReply)
    requires Shaped(s.steps)
    ensures Shaped(AfterMessage(s, view, m).steps)
    ensures Shaped(AfterMonitorTick(s, view, st).steps)
  {
    ShapedKept(AfterMessage(s, view, m).steps, s.steps);
  }

  /** Continue, Cancel and probes keep the shape invariant. */
  lemma ControlsKeepShape(s: Session, req: ContinueView, ir: InputReply, hr: HealthReply)
    requires Shaped(s.steps)
    ensures Shaped(AfterContinuePressed(s).steps)
    ensures Shaped(AfterContinueReply(s, req, ir).steps)
    ensures Shaped(AfterCancel(s).steps)
    ensures Shaped(AfterProbe(s, hr).steps)
  {
    ContinueReplyOutcome(s, req, ir);
    CancelOutcome(s);
    ShapedKept(AfterContinueReply(s, req, ir).steps, s.steps);
    ShapedKept(AfterCancel(s).steps, s.steps);
  }
}
