/** run_pipeline.py, `run_pipeline`: the stage state machine. PLAN, RED and
    GREEN run once each; a failing gate after GREEN starts a bounded series
    of fix attempts; then a bounded review loop, in which a reviewer's
    approval only counts when the tests pass; then a final gate and REPORT.
    Before most stages a cooperative stop check ends the run with what was
    completed so far.

    The agent, the test suite and the stop flag are the environment: the
    n-th agent stage returns `replies(n)`, the n-th test-suite run ends as
    `runs(n)`, and the stop flag is first seen by stop check number
    `stopAt` (counting from 0), if ever; once set it stays set, and the
    first check that sees it ends the run. The Bash commands the n-th agent
    stage runs, each with its response, are `bashCalls(n)`: the ones the
    command guardrail let through, which the test monitor hook sees. The
    REPORT stage runs without that hook. */
module Orchestrator {
  import opened Text
  import opened Tracker
  import opened Verifier
  import opened Guardrails
  import Hooks

  /** What one agent stage returns: its final text and its session id. */
  datatype StageReply = StageReply(text: string, sessionId: Option<string>)

  datatype Environment = Environment(
    stopAt: Option<nat>,
    replies: nat -> StageReply,
    runs: nat -> RunOutcome,
    markers: set<string>,
    bashCalls: nat -> seq<(string, Hooks.ToolResponse)>,
    maxFixAttempts: nat,
    maxReviewIterations: nat)

  /** The log lines the control flow depends on. */
  datatype Note =
    | FixesExhausted
    | Overridden(round: nat)
    | ApprovedOn(round: nat)
    | IssuesOn(round: nat)
    | StillFailing(round: nat)
    | NotApproved

  /** How a run ends: the report text, or `PipelineStopped` with the stages
      completed, the stage in progress, the session id and its message. */
  datatype Ending =
    | Finished(report: string)
    | Stopped(completedStages: seq<Stage>, currentStage: Stage, sessionId: Option<string>, message: string)

  const StoppedPrefix := "Pipeline stopped during "

  /** The stage a stage name names, if any. */
  function StageOfName(name: string): Option<Stage> {
    if name == "INIT" then Some(Init)
    else if name == "PLAN" then Some(Plan)
    else if name == "RED" then Some(Red)
    else if name == "GREEN" then Some(Green)
    else if name == "REVIEW" then Some(Review)
    else if name == "REVIEW_RED" then Some(ReviewRed)
    else if name == "REVIEW_GREEN" then Some(ReviewGreen)
    else if name == "REPORT" then Some(Report)
    else None
  }

  /** `PipelineStopped`'s message: the fixed prefix, then the name of the
      stage in progress, which can be read back from it; so messages for
      different stages differ. */
  function StoppedMessage(currentStage: Stage): (m: string)
    ensures |m| > |StoppedPrefix| && m[..|StoppedPrefix|] == StoppedPrefix
    ensures StageOfName(m[|StoppedPrefix|..]) == Some(currentStage)
  {
    var m := StoppedPrefix + StageName(currentStage);
    assert m[|StoppedPrefix|..] == StageName(currentStage);
    m
  }

  /** Two stop messages are equal only for the same stage. */
  lemma StoppedMessageInjective(a: Stage, b: Stage)
    requires StoppedMessage(a) == StoppedMessage(b)
    ensures a == b
  {
    var ma, mb := StoppedMessage(a), StoppedMessage(b);
    assert ma[|StoppedPrefix|..] == mb[|StoppedPrefix|..];
  }

  /** The order in which `completed_stages` is filled. */
  const StageOrder := [Plan, Red, Green, Review, Report]

  predicate IsPrefix(xs: seq<Stage>, ys: seq<Stage>) {
    |xs| <= |ys| && xs == ys[..|xs|]
  }

  /** The lists `completed_stages` passes through are prefixes of the order. */
  lemma StageOrderPrefixes()
    ensures IsPrefix([], StageOrder) && IsPrefix([Plan], StageOrder) && IsPrefix([Plan, Red], StageOrder)
    ensures IsPrefix([Plan, Red, Green], StageOrder) && IsPrefix([Plan, Red, Green, Review], StageOrder)
    ensures [] + [Plan] == [Plan] && [Plan] + [Red] == [Plan, Red] && [Plan, Red] + [Green] == [Plan, Red, Green]
    ensures [Plan, Red, Green] + [Review] == [Plan, Red, Green, Review]
    ensures [Plan, Red, Green, Review] + [Report] == StageOrder
  {
    assert StageOrder[..0] == [] && StageOrder[..1] == [Plan] && StageOrder[..2] == [Plan, Red];
    assert StageOrder[..3] == [Plan, Red, Green] && StageOrder[..4] == [Plan, Red, Green, Review];
  }

  /** Which stages can be complete when a stop check fires during a stage. */
  predicate ConsistentStop(completed: seq<Stage>, current: Stage) {
    match current
    case Plan => completed == []
    case Red => completed == [Plan]
    case Green => completed == [Plan, Red] || completed == [Plan, Red, Green]
    case Review => completed == [Plan, Red, Green]
    case ReviewGreen => completed == [Plan, Red, Green]
    case Report => completed == [Plan, Red, Green, Review]
    case _ => false
  }

  // ---------------------------------------------------------------------
  // The review override

  const ApprovedVerdict := "VERDICT: " + "APPROVED"
  const OverriddenVerdict := "VERDICT: CHANGES_NEEDED " + "(OVERRIDDEN)"

  /** A review that approves while the gate before it failed has every
      approval verdict rewritten. */
  function EffectiveReview(review: string, gatePassed: bool): string {
    if Contains(review, ApprovedVerdict) && !gatePassed then
      ReplaceAll(review, ApprovedVerdict, OverriddenVerdict)
    else review
  }

  lemma ApprovedVerdictChars()
    ensures |ApprovedVerdict| == 17 && ApprovedVerdict[0] == 'V' && ApprovedVerdict[3] == 'D'
    ensures ApprovedVerdict[9] == 'A' && ApprovedVerdict[16] == 'D'
    ensures forall k :: 1 <= k < 17 && ApprovedVerdict[k] == 'V' ==> k == 14
  {
  }

  lemma OverriddenVerdictChars()
    ensures |OverriddenVerdict| == 36 && OverriddenVerdict[0] == 'V' && OverriddenVerdict[2] == 'R'
    ensures OverriddenVerdict[3] == 'D' && OverriddenVerdict[9] == 'C' && OverriddenVerdict[29] == 'R'
    ensures forall j :: 0 <= j < 36 && OverriddenVerdict[j] == 'V' ==> j == 0 || j == 26
  {
  }

  /** The replacement text does not start with a proper suffix of the
      approval verdict. */
  lemma OverriddenStartsNoSuffix(rest: string, k: nat)
    requires 1 <= k < |ApprovedVerdict|
    ensures !StartsWith(OverriddenVerdict + rest, ApprovedVerdict[k..])
  {
    var p, r := ApprovedVerdict, OverriddenVerdict;
    ApprovedVerdictChars();
    OverriddenVerdictChars();
    var s := r + rest;
    assert p[k..][0] == p[k];
    if k + 2 < |p| {
      assert p[k..][2] == p[k + 2];
    }
    if |p| - k <= |s| {
      assert s[..|p| - k][0] == r[0];
      if |p| - k > 2 {
        assert s[..|p| - k][2] == r[2];
      }
    }
  }

  /** A rewritten review can only start with a proper suffix of the approval
      verdict where the original did. */
  lemma {:induction false} ReplacedStartsWithSuffix(u: string, k: nat)
    requires 1 <= k < |ApprovedVerdict|
    requires StartsWith(ReplaceAll(u, ApprovedVerdict, OverriddenVerdict), ApprovedVerdict[k..])
    ensures StartsWith(u, ApprovedVerdict[k..])
    decreases |u|
  {
    var p, r := ApprovedVerdict, OverriddenVerdict;
    if |u| < |p| {
    } else if u[..|p|] == p {
      OverriddenStartsNoSuffix(ReplaceAll(u[|p|..], p, r), k);
    } else {
      var rest := ReplaceAll(u[1..], p, r);
      assert ReplaceAll(u, p, r) == [u[0]] + rest;
      assert p[k..][1..] == p[k + 1..];
      ConsStartsWith(u[0], rest, p[k..]);
      assert u == [u[0]] + u[1..];
      ConsStartsWith(u[0], u[1..], p[k..]);
      if k + 1 < |p| {
        ReplacedStartsWithSuffix(u[1..], k + 1);
      } else {
        assert p[k + 1..] == [];
      }
    }
  }


  /** The replacement text neither contains the approval verdict nor ends
      with a beginning of it. */
  lemma NoApprovedInOverridden(rest: string, j: nat)
    requires j < |OverriddenVerdict|
    ensures !OccursAt(OverriddenVerdict + rest, ApprovedVerdict, j)
  {
    var p, r := ApprovedVerdict, OverriddenVerdict;
    ApprovedVerdictChars();
    OverriddenVerdictChars();
    var s := r + rest;
    if j + |p| <= |s| {
      assert s[j..j + |p|][0] == s[j] && s[j..j + |p|][3] == s[j + 3] && s[j..j + |p|][9] == s[j + 9];
    }
  }

  /** After the rewrite no approval verdict is left. */
  lemma {:induction false} ReplacedHasNoApproval(t: string)
    ensures !Contains(ReplaceAll(t, ApprovedVerdict, OverriddenVerdict), ApprovedVerdict)
    decreases |t|
  {
    var p, r := ApprovedVerdict, OverriddenVerdict;
    var out := ReplaceAll(t, p, r);
    forall j | 0 <= j <= |out| ensures !OccursAt(out, p, j) {
      if |t| < |p| {
      } else if t[..|p|] == p {
        var rest := ReplaceAll(t[|p|..], p, r);
        assert out == r + rest;
        if j < |r| {
          NoApprovedInOverridden(rest, j);
        } else {
          ReplacedHasNoApproval(t[|p|..]);
          OccursAfterPrefix(r, rest, p, j);
        }
      } else {
        var rest := ReplaceAll(t[1..], p, r);
        assert out == [t[0]] + rest;
        if j == 0 {
          KeptCharNoApproval(t);
        } else {
          ReplacedHasNoApproval(t[1..]);
          OccursAfterPrefix([t[0]], rest, p, j);
        }
      }
    }
  }

  /** Where the text does not start with the approval verdict, its first
      character, kept in front of the rewritten remainder, does not start one. */
  lemma KeptCharNoApproval(t: string)
    requires |t| >= |ApprovedVerdict| && t[..|ApprovedVerdict|] != ApprovedVerdict
    ensures !OccursAt([t[0]] + ReplaceAll(t[1..], ApprovedVerdict, OverriddenVerdict), ApprovedVerdict, 0)
  {
    var p, r := ApprovedVerdict, OverriddenVerdict;
    var rest := ReplaceAll(t[1..], p, r);
    ConsStartsWith(t[0], rest, p);
    if t[0] == p[0] && StartsWith(rest, p[1..]) {
      ReplacedStartsWithSuffix(t[1..], 1);
      assert false;
    }
  }



  /** The review approves exactly when the reviewer approved and the gate
      before the review passed. */
  lemma ApprovalRequiresPass(review: string, gatePassed: bool)
    ensures Contains(EffectiveReview(review, gatePassed), ApprovedVerdict)
        <==> Contains(review, ApprovedVerdict) && gatePassed
  {
    if Contains(review, ApprovedVerdict) && !gatePassed {
      ReplacedHasNoApproval(review);
    }
  }

  // ---------------------------------------------------------------------
  // The run

  /** The first `|prefix|` entries of `log` are `prefix`. */
  predicate Extends(log: seq<Note>, prefix: seq<Note>) {
    |prefix| <= |log| && log[..|prefix|] == prefix
  }

  lemma ExtendsTransitive(a: seq<Note>, b: seq<Note>, c: seq<Note>)
    requires Extends(a, b) && Extends(b, c)
    ensures Extends(a, c)
  {
    assert a[..|c|] == a[..|b|][..|c|];
  }

  /** The tracker's history only grows: growth is transitive. */
  lemma GrowsTransitive(a: seq<TestResult>, b: seq<TestResult>, c: seq<TestResult>)
    requires a <= b && b <= c
    ensures a <= c
  {
    assert c[..|b|][..|a|] == c[..|a|];
  }

  class PipelineRun {
    const env: Environment
    const tracker: TestTracker
    /** `tracker.canonical_test_command`, fixed before the first stage. */
    const testCommand: Option<string>
    var completed: seq<Stage>
    var current: Stage
    var session: Option<string>
    var log: seq<Note>
    /** How many stop checks, agent stages and test-suite runs happened. */
    var stopChecks: nat
    var agentRuns: nat
    var testRuns: nat

    constructor (env: Environment)
      ensures this.env == env && fresh(tracker) && Valid()
      ensures tracker.results == [] && testCommand == DetectTestCommand(env.markers)
      ensures completed == [] && current == Init && session == None && log == []
      ensures stopChecks == 0 && agentRuns == 0 && testRuns == 0
    {
      this.env := env;
      var t := new TestTracker();
      t.canonicalTestCommand := DetectTestCommand(env.markers);
      tracker := t;
      testCommand := DetectTestCommand(env.markers);
      completed := [];
      current := Init;
      session := None;
      log := [];
      stopChecks := 0;
      agentRuns := 0;
      testRuns := 0;
    }

    predicate Valid()
      reads tracker`canonicalTestCommand
    {
      tracker.canonicalTestCommand == testCommand
    }

    /** None of the first n stop checks sees the stop flag. */
    predicate NoStopBefore(n: nat) {
      env.stopAt.None? || env.stopAt.value >= n
    }

    /** Stop check number n - 1 is the first to see the flag. */
    predicate StopSeenBy(n: nat) {
      n > 0 && env.stopAt == Some(n - 1)
    }

    /** What the k-th test-suite run gives as a gate result. */
    function GateAt(k: nat): TestResult {
      GateResult(testCommand, env.runs(k))
    }

    /** Whether the k-th test-suite run gives a passing gate. */
    predicate PassesAt(k: nat) {
      GateOutcome(testCommand, env.runs(k)) == Pass
    }

    /** `_check_stop`. */
    method CheckStop() returns (stop: bool)
      modifies this`stopChecks
      ensures stopChecks == old(stopChecks) + 1
      ensures stop <==> env.stopAt == Some(old(stopChecks))
    {
      stop := env.stopAt == Some(stopChecks);
      stopChecks := stopChecks + 1;
    }

    /** What agent stage number n adds to the tracker through the test
        monitor hook. */
    function StageRecords(n: nat): seq<TestResult> {
      Hooks.HookRecords(env.bashCalls(n))
    }

    /** `run_stage`: one agent stage, with the test monitor hook run after
        each of its Bash calls. */
    method RunStage() returns (reply: StageReply)
      modifies this`agentRuns, tracker`results
      ensures reply == env.replies(old(agentRuns)) && agentRuns == old(agentRuns) + 1
      ensures tracker.results == old(tracker.results) + StageRecords(old(agentRuns))
    {
      Hooks.HookCalls(tracker, env.bashCalls(agentRuns));
      reply := env.replies(agentRuns);
      agentRuns := agentRuns + 1;
    }

    /** A stage entered, a stop check, and the agent stage unless the check
        ended the run. */
    method EnterStage(stage: Stage) returns (stopped: bool, reply: StageReply)
      requires NoStopBefore(stopChecks)
      modifies this`current, this`stopChecks, this`agentRuns, tracker`results
      ensures old(tracker.results) <= tracker.results
      ensures current == stage && stopChecks == old(stopChecks) + 1
      ensures stopped <==> StopSeenBy(stopChecks)
      ensures stopped ==> agentRuns == old(agentRuns) && tracker.results == old(tracker.results)
      ensures !stopped ==> tracker.results == old(tracker.results) + StageRecords(old(agentRuns))
      ensures !stopped ==> (NoStopBefore(stopChecks) && agentRuns == old(agentRuns) + 1
        && reply == env.replies(old(agentRuns)))
    {
      current := stage;
      reply := StageReply("", None);
      stopped := CheckStop();
      if !stopped {
        reply := RunStage();
      }
    }

    /** A stop check, then, unless it ended the run, a stage entered and its
        agent stage. */
    method CheckThenStage(stage: Stage) returns (stopped: bool, reply: StageReply)
      requires NoStopBefore(stopChecks)
      modifies this`current, this`stopChecks, this`agentRuns, tracker`results
      ensures stopChecks == old(stopChecks) + 1
      ensures stopped <==> StopSeenBy(stopChecks)
      ensures stopped ==> (agentRuns == old(agentRuns) && current == old(current)
        && tracker.results == old(tracker.results))
      ensures !stopped ==> tracker.results == old(tracker.results) + StageRecords(old(agentRuns))
      ensures !stopped ==> (NoStopBefore(stopChecks) && current == stage
        && agentRuns == old(agentRuns) + 1 && reply == env.replies(old(agentRuns)))
    {
      reply := StageReply("", None);
      stopped := CheckStop();
      if !stopped {
        current := stage;
        reply := RunStage();
      }
    }

    /** `_verify_and_emit`: one gate, recorded in the tracker when the suite
        ran to completion. */
    method Gate() returns (g: TestResult)
      requires Valid()
      modifies this`testRuns, tracker`results
      ensures g == GateAt(old(testRuns)) && testRuns == old(testRuns) + 1
      ensures g.outcome == Pass <==> PassesAt(old(testRuns))
      ensures tracker.results == old(tracker.results)
        + (if Recorded(testCommand, env.runs(old(testRuns))) then [g] else [])
    {
      g := VerifyTests(tracker, env.runs(testRuns));
      GateOutcomeIsOutcome(testCommand, env.runs(testRuns));
      testRuns := testRuns + 1;
    }

    /** The GREEN fix attempts after the gate `gate`: none when it passed,
        otherwise at most `maxFixAttempts`, each a stop check, a fix stage
        and a gate, until a gate passes; the warning is logged only when
        every attempt failed. */
    method GreenFixes(gate: TestResult) returns (stopped: bool, last: TestResult)
      requires Valid() && NoStopBefore(stopChecks)
      modifies this`stopChecks, this`agentRuns, this`testRuns, this`log, tracker`results
      ensures old(tracker.results) <= tracker.results
      ensures gate.outcome == Pass ==> !stopped && last == gate && testRuns == old(testRuns)
      ensures testRuns - old(testRuns) <= env.maxFixAttempts
      ensures agentRuns == old(agentRuns) + testRuns - old(testRuns)
      ensures forall a :: old(testRuns) <= a < testRuns - 1 ==> !PassesAt(a)
      ensures !stopped && testRuns > old(testRuns) ==> (last.outcome == Pass <==> PassesAt(testRuns - 1))
      ensures stopped <==> StopSeenBy(stopChecks) && old(stopChecks) < stopChecks
      ensures !stopped ==> NoStopBefore(stopChecks)
      ensures log == old(log) + (if !stopped && last.outcome != Pass then [FixesExhausted] else [])
      ensures !stopped && last.outcome != Pass ==> (
        testRuns == old(testRuns) + env.maxFixAttempts
        && forall a :: old(testRuns) <= a < testRuns ==> !PassesAt(a))
    {
      last := gate;
      stopped := false;
      if gate.outcome == Pass {
        return;
      }
      var attempt := 1;
      while attempt <= env.maxFixAttempts
        invariant 1 <= attempt <= env.maxFixAttempts + 1
        invariant testRuns == old(testRuns) + attempt - 1
        invariant agentRuns == old(agentRuns) + attempt - 1
        invariant old(stopChecks) <= stopChecks
        invariant NoStopBefore(stopChecks) && !stopped && log == old(log)
        invariant forall a :: old(testRuns) <= a < testRuns ==> !PassesAt(a)
        invariant last.outcome != Pass
        invariant old(tracker.results) <= tracker.results
      {
        ghost var before := tracker.results;
        stopped, last := FixAttempt(last);
        GrowsTransitive(old(tracker.results), before, tracker.results);
        if stopped || last.outcome == Pass {
          return;
        }
        attempt := attempt + 1;
      }
      log := log + [FixesExhausted];
    }

    /** One GREEN fix attempt: a stop check, a fix stage and a gate. */
    method FixAttempt(prev: TestResult) returns (stopped: bool, g: TestResult)
      requires Valid() && NoStopBefore(stopChecks)
      modifies this`stopChecks, this`agentRuns, this`testRuns, tracker`results
      ensures stopChecks == old(stopChecks) + 1
      ensures stopped <==> StopSeenBy(stopChecks)
      ensures stopped ==> testRuns == old(testRuns) && agentRuns == old(agentRuns) && g == prev
      ensures !stopped ==> (NoStopBefore(stopChecks) && (g.outcome == Pass <==> PassesAt(old(testRuns)))
        && testRuns == old(testRuns) + 1 && agentRuns == old(agentRuns) + 1)
      ensures stopped ==> tracker.results == old(tracker.results)
      ensures !stopped ==> tracker.results == old(tracker.results) + StageRecords(old(agentRuns))
                             + (if Recorded(testCommand, env.runs(old(testRuns))) then [g] else [])
    {
      g := prev;
      stopped := CheckStop();
      if stopped {
        return;
      }
      var _ := RunStage();
      g := Gate();
    }

    /** The first half of a review round: stop check, gate, review stage,
        override; approval only when the review still approves. */
    method ReviewVerdict(round: nat) returns (stopped: bool, approved: bool)
      requires Valid() && NoStopBefore(stopChecks)
      modifies this`current, this`stopChecks, this`agentRuns, this`testRuns, this`log, tracker`results
      ensures old(tracker.results) <= tracker.results
      ensures current == Review
      ensures stopped <==> StopSeenBy(stopChecks) && old(stopChecks) < stopChecks
      ensures !stopped ==> (NoStopBefore(stopChecks) && stopChecks == old(stopChecks) + 1
        && testRuns == old(testRuns) + 1 && agentRuns == old(agentRuns) + 1)
      ensures stopped ==> !approved && log == old(log)
      ensures approved <==> (!stopped
        && Contains(EffectiveReview(env.replies(old(agentRuns)).text, PassesAt(old(testRuns))), ApprovedVerdict))
      ensures approved ==> (PassesAt(old(testRuns))
        && Contains(env.replies(old(agentRuns)).text, ApprovedVerdict)
        && log == old(log) + [ApprovedOn(round)])
      ensures !stopped && !approved ==> (log == old(log)
        + (if Contains(env.replies(old(agentRuns)).text, ApprovedVerdict) then [Overridden(round)] else [])
        + [IssuesOn(round)])
    {
      current := Review;
      approved := false;
      stopped := CheckStop();
      if stopped {
        return;
      }
      var verify := Gate();
      ghost var gated := tracker.results;
      var reply := RunStage();
      GrowsTransitive(old(tracker.results), gated, tracker.results);
      approved := Judge(round, reply.text, verify.outcome == Pass);
    }

    /** The override and the verdict of a review given whether the gate
        before it passed. */
    method Judge(round: nat, review: string, gatePassed: bool) returns (approved: bool)
      modifies this`log
      ensures approved <==> Contains(EffectiveReview(review, gatePassed), ApprovedVerdict)
      ensures approved ==> (gatePassed && Contains(review, ApprovedVerdict)
        && log == old(log) + [ApprovedOn(round)])
      ensures !approved ==> (log == old(log)
        + (if Contains(review, ApprovedVerdict) then [Overridden(round)] else [])
        + [IssuesOn(round)])
    {
      var text := review;
      ApprovalRequiresPass(review, gatePassed);
      if Contains(text, ApprovedVerdict) && !gatePassed {
        log := log + [Overridden(round)];
        text := ReplaceAll(text, ApprovedVerdict, OverriddenVerdict);
      }
      if Contains(text, ApprovedVerdict) {
        log := log + [ApprovedOn(round)];
        return true;
      }
      log := log + [IssuesOn(round)];
      return false;
    }

    /** The second half of a review round after findings: stop check,
        REVIEW_RED, stop check, REVIEW_GREEN and a gate. */
    method FixFindings(round: nat) returns (stopped: bool)
      requires Valid() && NoStopBefore(stopChecks) && current == Review
      modifies this`current, this`stopChecks, this`agentRuns, this`testRuns, this`log, tracker`results
      ensures old(tracker.results) <= tracker.results
      ensures stopped <==> StopSeenBy(stopChecks) && old(stopChecks) < stopChecks
      ensures stopped ==> current == Review || current == ReviewGreen
      ensures stopChecks > old(stopChecks)
      ensures !stopped ==> (NoStopBefore(stopChecks) && current == ReviewGreen
        && testRuns == old(testRuns) + 1 && agentRuns == old(agentRuns) + 2
        && log == old(log) + (if !PassesAt(old(testRuns)) then [StillFailing(round)] else []))
      ensures stopped ==> log == old(log)
    {
      var fix;
      stopped, fix := CheckThenStage(ReviewRed);
      if stopped {
        return;
      }
      stopped, fix := EnterStage(ReviewGreen);
      if stopped {
        return;
      }
      var fixGate := Gate();
      if fixGate.outcome != Pass {
        log := log + [StillFailing(round)];
      }
    }

    /** The review loop: at most `maxReviewIterations` rounds, ending early
        only on an approval that survived the override. */
    method ReviewLoop() returns (stopped: bool, rounds: nat, approved: bool)
      requires Valid() && NoStopBefore(stopChecks)
      modifies this`current, this`stopChecks, this`agentRuns, this`testRuns, this`log, tracker`results
      ensures old(tracker.results) <= tracker.results
      ensures rounds <= env.maxReviewIterations
      ensures stopped <==> StopSeenBy(stopChecks) && old(stopChecks) < stopChecks
      ensures stopped ==> current == Review || current == ReviewGreen
      ensures !stopped ==> NoStopBefore(stopChecks)
      ensures approved ==> (!stopped && rounds >= 1 && testRuns > 0
        && PassesAt(testRuns - 1)
        && |log| > 0 && log[|log| - 1] == ApprovedOn(rounds))
      ensures !stopped && !approved ==> (rounds == env.maxReviewIterations
        && |log| > 0 && log[|log| - 1] == NotApproved)
      ensures Extends(log, old(log))
    {
      stopped, approved := false, false;
      rounds := 0;
      while rounds < env.maxReviewIterations
        invariant rounds <= env.maxReviewIterations
        invariant NoStopBefore(stopChecks) && old(stopChecks) <= stopChecks
        invariant Extends(log, old(log)) && !stopped && !approved
        invariant old(tracker.results) <= tracker.results
      {
        rounds := rounds + 1;
        ghost var before := log;
        ghost var seen := tracker.results;
        stopped, approved := ReviewVerdict(rounds);
        GrowsTransitive(old(tracker.results), seen, tracker.results);
        assert Extends(log, before);
        ExtendsTransitive(log, before, old(log));
        if stopped || approved {
          return;
        }
        ghost var middle := log;
        seen := tracker.results;
        stopped := FixFindings(rounds);
        GrowsTransitive(old(tracker.results), seen, tracker.results);
        assert Extends(log, middle);
        ExtendsTransitive(log, middle, old(log));
        if stopped {
          return;
        }
      }
      log := log + [NotApproved];
    }

    /** PLAN, RED, GREEN and the gate after GREEN; no gate when a stop check
        ended the run first. */
    method FirstStages() returns (gate: Option<TestResult>)
      requires Valid()
      requires completed == [] && current == Init && session == None
      requires stopChecks == 0 && agentRuns == 0 && testRuns == 0
      modifies this`completed, this`current, this`session, this`stopChecks, this`agentRuns, this`testRuns, tracker`results
      ensures old(tracker.results) <= tracker.results
      ensures gate.None? <==> StopSeenBy(stopChecks)
      ensures gate.None? ==> ConsistentStop(completed, current) && IsPrefix(completed, StageOrder)
      ensures gate.None? && current == Green ==> completed == [Plan, Red] && stopChecks == 3
      ensures gate.Some? ==> (completed == [Plan, Red, Green] && current == Green
        && NoStopBefore(stopChecks) && stopChecks == 3 && testRuns == 1 && agentRuns == 3
        && (gate.value.outcome == Pass <==> PassesAt(0)))
      ensures agentRuns > 0 ==> session == env.replies(0).sessionId
    {
      gate := None;
      StageOrderPrefixes();
      var stop, plan := EnterStage(Plan);
      if stop {
        return;
      }
      session := plan.sessionId;
      completed := completed + [Plan];

      var reply;
      ghost var seen := tracker.results;
      stop, reply := EnterStage(Red);
      GrowsTransitive(old(tracker.results), seen, tracker.results);
      if stop {
        return;
      }
      completed := completed + [Red];

      seen := tracker.results;
      stop, reply := EnterStage(Green);
      GrowsTransitive(old(tracker.results), seen, tracker.results);
      if stop {
        return;
      }
      seen := tracker.results;
      var g := Gate();
      assert seen <= tracker.results;
      GrowsTransitive(old(tracker.results), seen, tracker.results);
      completed := completed + [Green];
      gate := Some(g);
    }

    /** The final gate and REPORT, after a stop check. */
    method ReportStage() returns (ending: Ending)
      requires Valid() && NoStopBefore(stopChecks)
      modifies this`completed, this`current, this`stopChecks, this`agentRuns, this`testRuns, tracker`results
      ensures current == Report
      ensures ending.Stopped? <==> StopSeenBy(stopChecks)
      ensures ending.Stopped? ==> ending == Stopped(completed, current, session, StoppedMessage(current)) && completed == old(completed)
      ensures ending.Finished? ==> (NoStopBefore(stopChecks) && completed == old(completed) + [Report]
        && agentRuns == old(agentRuns) + 1 && ending.report == env.replies(old(agentRuns)).text)
      ensures ending.Finished? ==> (testRuns == old(testRuns) + 1
        && tracker.results == old(tracker.results)
             + (if Recorded(testCommand, env.runs(old(testRuns))) then [GateAt(old(testRuns))] else []))
      ensures ending.Stopped? ==> testRuns == old(testRuns) && tracker.results == old(tracker.results)
    {
      current := Report;
      var stop := CheckStop();
      if stop {
        return Stopped(completed, current, session, StoppedMessage(current));
      }
      var _ := Gate();
      // The report client may only read files and has no hooks: its reply
      // adds nothing to the tracker.
      var report := env.replies(agentRuns);
      agentRuns := agentRuns + 1;
      completed := completed + [Report];
      ending := Finished(report.text);
    }

    /** `run_pipeline` from a fresh state to its end. */
    method Run() returns (ending: Ending)
      requires Valid()
      requires completed == [] && current == Init && session == None && log == []
      requires stopChecks == 0 && agentRuns == 0 && testRuns == 0
      modifies this, tracker`results
      ensures old(tracker.results) <= tracker.results
      ensures IsPrefix(completed, StageOrder)
      ensures ending.Finished? <==> NoStopBefore(stopChecks)
      ensures ending.Finished? ==> (completed == StageOrder && agentRuns > 0
        && ending.report == env.replies(agentRuns - 1).text)
      ensures ending.Stopped? ==> (StopSeenBy(stopChecks)
        && ending == Stopped(completed, current, session, StoppedMessage(current)) && ConsistentStop(completed, current))
      ensures ending.Stopped? && ending.currentStage == Green ==>
        (ending.completedStages == [Plan, Red, Green] <==> stopChecks > 3)
      ensures agentRuns > 0 ==> session == env.replies(0).sessionId
    {
      StageOrderPrefixes();
      var gate := FirstStages();
      if gate.None? {
        return Stopped(completed, current, session, StoppedMessage(current));
      }
      var fixStopped, _ := GreenFixes(gate.value);
      if fixStopped {
        return Stopped(completed, current, session, StoppedMessage(current));
      }
      var reviewStopped, _, _ := ReviewLoop();
      if reviewStopped {
        return Stopped(completed, current, session, StoppedMessage(current));
      }
      completed := completed + [Review];
      ending := ReportStage();
    }
  }
}
