/**
 * The supported robot variants and the lookup the page performs on its
 * configured robot type: strip the role suffix, then find the template whose
 * id is the result.
 */
module Robots {
  import opened JsText
  import opened Steps

  /** `RobotType`: a supported variant with its template step list. */
  datatype RobotTemplate = RobotTemplate(id: string, name: string, description: string, steps: seq<Step>)

  const ConnectionStep := Step("connection", "Connect to Robot", "Establish connection to the robot arm", Pending, None)
  const MiddleStep := Step("step1", "Step 1: Move to Middle Position", "Move the test joint to the middle of its range", Pending, None)
  const RangeStep := Step("step2", "Step 2: Move All Joints", "Move all joints through their entire range of motion", Pending, None)
  const CompletionStep := Step("completion", "Calibration Complete", "Calibration files saved and robot disconnected", Pending, None)

  /** The four steps of an arm calibration; both variants use this list. */
  const ArmSteps: seq<Step> := [ConnectionStep, MiddleStep, RangeStep, CompletionStep]

  const So100 := RobotTemplate("so100", "SO-100", "5-DOF robotic arm", ArmSteps)
  const Giraffe := RobotTemplate("giraffe", "Giraffe v1.1", "6-DOF robotic arm", ArmSteps)

  /** `robotTypes`, in the order `find` searches it. */
  const RobotTypes: seq<RobotTemplate> := [So100, Giraffe]

  /** The two role suffixes. */
  const LeaderSuffix := "_leader"
  const FollowerSuffix := "_follower"

  /** Each suffix starts with a character it does not repeat; neither holds the other. */
  lemma SuffixFacts()
    ensures |LeaderSuffix| > 0 && LeaderSuffix[0] !in LeaderSuffix[1..]
    ensures |FollowerSuffix| > 0 && FollowerSuffix[0] !in FollowerSuffix[1..]
    ensures FollowerSuffix[0] == LeaderSuffix[0] == '_'
    ensures !Includes(LeaderSuffix, FollowerSuffix) && !Includes(FollowerSuffix, LeaderSuffix)
  {
    assert LeaderSuffix[1..] == "leader";
    assert FollowerSuffix[1..] == "follower";
    MissingCharExcludes(LeaderSuffix, FollowerSuffix, 'f');
    MissingCharExcludes(FollowerSuffix, LeaderSuffix, 'a');
  }

  /**
   * `robotType.replace('_leader', '').replace('_follower', '')`: removes the
   * first `_leader`, then the first `_follower` of what is left.
   */
  function BaseRobotType(robotType: string): (r: string)
    ensures |r| <= |robotType|
    ensures !Includes(robotType, LeaderSuffix) && !Includes(robotType, FollowerSuffix) ==> r == robotType
  {
    var once := ReplaceFirst(robotType, LeaderSuffix, "");
    if Includes(once, FollowerSuffix) then
      assert |once| <= |robotType|;
      ReplaceFirst(once, FollowerSuffix, "")
    else once
  }

  /** In `b + p + rest`, with `b` free of `p`, the first `p` is the one after `b`, and removing it leaves `b + rest`. */
  lemma RemoveFirstAfter(b: string, p: string, rest: string)
    requires |p| > 0 && p[0] !in p[1..]
    requires !Includes(b, p)
    ensures ReplaceFirst(b + p + rest, p, "") == b + rest
  {
    var s := b + p + rest;
    FirstOccurrenceAfter(b, p, rest);
    assert s[..|b|] == b && s[|b| + |p|..] == rest;
  }

  /** A type named after its base with the `_leader` suffix maps back to that base. */
  lemma BaseOfLeader(b: string)
    requires !Includes(b, LeaderSuffix) && !Includes(b, FollowerSuffix)
    ensures BaseRobotType(b + LeaderSuffix) == b
  {
    SuffixFacts();
    RemoveFirstAfter(b, LeaderSuffix, "");
    assert b + LeaderSuffix + "" == b + LeaderSuffix && b + "" == b;
  }

  /** A `_leader`-free base followed by `_follower` has no `_leader` either. */
  lemma FollowerHasNoLeader(b: string)
    requires !Includes(b, LeaderSuffix)
    ensures !Includes(b + FollowerSuffix, LeaderSuffix)
  {
    SuffixFacts();
    NoOccurrenceAcrossSeam(b, FollowerSuffix, LeaderSuffix);
  }

  /** A type named after its base with the `_follower` suffix maps back to that base. */
  lemma BaseOfFollower(b: string)
    requires !Includes(b, LeaderSuffix) && !Includes(b, FollowerSuffix)
    ensures BaseRobotType(b + FollowerSuffix) == b
  {
    var s := b + FollowerSuffix;
    SuffixFacts();
    FollowerHasNoLeader(b);
    assert ReplaceFirst(s, LeaderSuffix, "") == s;
    RemoveFirstAfter(b, FollowerSuffix, "");
    assert s + "" == s && b + "" == b;
  }

  /**
   * Only the first `_leader` is removed: a doubled suffix leaves one behind
   * (so "so100_leader_leader" has base "so100_leader", which has no template).
   */
  lemma OnlyFirstSuffixRemoved(b: string)
    requires '_' !in b
    ensures BaseRobotType(b + LeaderSuffix + LeaderSuffix) == b + LeaderSuffix
  {
    SuffixFacts();
    MissingCharExcludes(b, LeaderSuffix, '_');
    MissingCharExcludes(b, FollowerSuffix, '_');
    RemoveFirstAfter(b, LeaderSuffix, LeaderSuffix);
    NoOccurrenceAcrossSeam(b, LeaderSuffix, FollowerSuffix);
  }

  /** `Array.prototype.find` by id: the first template with that id, if any. */
  function Find(ts: seq<RobotTemplate>, id: string): (r: Option<RobotTemplate>)
    ensures r.None? <==> forall k :: 0 <= k < |ts| ==> ts[k].id != id
    ensures r.Some? ==> exists k :: 0 <= k < |ts| && ts[k] == r.value && r.value.id == id &&
                                  forall j :: 0 <= j < k ==> ts[j].id != id
  {
    if ts == [] then None
    else if ts[0].id == id then Some(ts[0])
    else
      var r := Find(ts[1..], id);
      assert forall k :: 1 <= k < |ts| ==> ts[k] == ts[1..][k - 1];
      if r.Some? then
        ghost var k :| 0 <= k < |ts[1..]| && ts[1..][k] == r.value && r.value.id == id &&
                       forall j :: 0 <= j < k ==> ts[1..][j].id != id;
        assert ts[k + 1] == r.value;
        r
      else r
  }

  /** Every template found by the lookup is one of `RobotTypes`, and all use the arm steps. */
  lemma TemplateSteps(t: RobotTemplate)
    requires t in RobotTypes
    ensures t.steps == ArmSteps
  {
  }

  /**
   * `selectedRobotType`: the template for a configured robot type. One exists
   * exactly when the base type is "so100" or "giraffe", and it has the arm steps.
   */
  function SelectedRobotType(robotType: string): (r: Option<RobotTemplate>)
    ensures r.Some? <==> BaseRobotType(robotType) == "so100" || BaseRobotType(robotType) == "giraffe"
    ensures r.Some? ==> r.value.id == BaseRobotType(robotType) && r.value.steps == ArmSteps
  {
    Supported(BaseRobotType(robotType));
    Find(RobotTypes, BaseRobotType(robotType))
  }

  /** Exactly the ids "so100" and "giraffe" have a template; each has four pending steps. */
  lemma Supported(id: string)
    ensures Find(RobotTypes, id).Some? <==> id == "so100" || id == "giraffe"
    ensures Find(RobotTypes, id).Some? ==>
              |Find(RobotTypes, id).value.steps| == 4 && AllAre(Find(RobotTypes, id).value.steps, Pending)
  {
  }

  /**
   * Leader and follower configurations of a supported base find its template:
   * "so100_leader" and "so100_follower" find SO-100, "giraffe_leader" and
   * "giraffe_follower" find Giraffe v1.1 (see `Supported` for the two bases).
   */
  lemma SuffixedSelects(b: string, t: RobotTemplate)
    requires Find(RobotTypes, b) == Some(t)
    requires '_' !in b
    ensures SelectedRobotType(b + LeaderSuffix) == Some(t)
    ensures SelectedRobotType(b + FollowerSuffix) == Some(t)
  {
    MissingCharExcludes(b, LeaderSuffix, '_');
    MissingCharExcludes(b, FollowerSuffix, '_');
    BaseOfLeader(b);
    BaseOfFollower(b);
  }
}
