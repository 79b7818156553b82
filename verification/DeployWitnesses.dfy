/** Runs of the deploy machine that end as one might not expect, or as one hopes. */
module DeployWitnesses {
  import opened Text
  import opened DeployHistory
  import opened DeployMachine
  import opened DeployRuns
  import opened DeploySteps

  lemma RunThree(s: State, a: Action, b: Action, c: Action)
    ensures Run(s, [a, b, c]) == Step(Step(Step(s, a), b), c)
  {
    hide Step;
    assert [a, b, c][..2] == [a, b] && [a, b][..1] == [a] && [a][..0] == [];
    assert Run(s, [a]) == Step(Run(s, []), a);
    assert Run(s, [a, b]) == Step(Run(s, [a]), b);
  }

  lemma RunOne(s: State, a: Action)
    ensures Run(s, [a]) == Step(s, a)
  {
    hide Step;
    assert [a][..0] == [];
  }

  /** Every write may succeed and the row still stay running: when the new row cannot be read back, the
      invocation returns an error and never finishes the row. */
  lemma ReadBackFailureLeavesRunning(start: State, projectId: string, project: ProjectRow, trigger: string, actor: string)
    requires Initial(start)
    ensures var f := |start.frames|;
            var end := Run(start, [Call(projectId, project, true, trigger, actor),
                                   Advance(f, Luck(true, true, "")), Advance(f, Luck(true, false, ""))]);
            && |end.frames| == f + 1 && end.frames[f].pc == Done(NotStarted) && !ReturnsNil(NotStarted)
            && OwnRow(end.table, end.frames[f], Running)
  {
    hide TriggerOf, TrimSpace, Applying, Finishing, Restoring, Run, PinOf;
    var f := |start.frames|;
    RunThree(start, Call(projectId, project, true, trigger, actor), Advance(f, Luck(true, true, "")), Advance(f, Luck(true, false, "")));
  }

  // ---- Invocations whose steps all succeed ----

  const SMOOTH := Luck(true, true, "")

  /** Where an invocation stands after some steps that all succeed. */
  function SmoothPc(n: nat, docker: bool): Pc {
    if n == 0 then Enter else if n == 1 then Start else if n == 2 then Choose else if n == 3 then Queue
    else
      var m := if docker then n - 4 else n - 2;
      if m == 0 then Pull else if m == 1 then Create else if m == 2 then Check else if m == 3 then Route
      else if m == 4 then Dns else if m == 5 then Announce else FinishLive
  }

  /** How many of them come before the last write. */
  function SmoothSteps(docker: bool): nat {
    if docker then 10 else 8
  }

  function Smooth(f: nat, n: nat): seq<Action> {
    if n == 0 then [] else Smooth(f, n - 1) + [Advance(f, SMOOTH)]
  }

  /** Of some states, all is the same but the table, the log and one invocation, whose job stays. */
  predicate OnlyMoves(s: State, t: State, f: nat) {
    && f < |s.frames| == |t.frames|
    && t.docker == s.docker && t.rootSet == s.rootSet && t.projects == s.projects
    && t.frames == s.frames[f := t.frames[f]] && t.frames[f].job == s.frames[f].job
  }

  lemma SmoothStep(s: State, f: nat, n: nat)
    requires f < |s.frames| && n < SmoothSteps(s.docker)
    requires s.frames[f].pc == SmoothPc(n, s.docker) && (s.frames[f].job.project.web ==> s.frames[f].job.rootSet)
    ensures var t := Step(s, Advance(f, SMOOTH)); OnlyMoves(s, t, f) && t.frames[f].pc == SmoothPc(n + 1, s.docker)
  {
    hide PinOf, TriggerOf, TrimSpace, Inserted, Restoring, Finishing;
  }

  lemma {:induction false} SmoothRunsTo(s: State, f: nat, n: nat)
    requires f < |s.frames| && s.frames[f].pc.Enter? && n <= SmoothSteps(s.docker)
    requires s.frames[f].job.project.web ==> s.frames[f].job.rootSet
    ensures var t := Run(s, Smooth(f, n)); OnlyMoves(s, t, f) && t.frames[f].pc == SmoothPc(n, s.docker)
  {
    hide Step, Run;
    if n == 0 {
      NoRun(s);
    } else {
      hide SmoothPc;
      RunStep(s, Smooth(f, n));
      assert Smooth(f, n)[..|Smooth(f, n)| - 1] == Smooth(f, n - 1);
      SmoothRunsTo(s, f, n - 1);
      SmoothStep(Run(s, Smooth(f, n - 1)), f, n - 1);
    }
  }

  lemma NoRun(s: State)
    ensures Run(s, []) == s
  {
  }

  lemma {:induction false} SmoothLuck(f: nat, n: nat, k: nat)
    requires k < |Smooth(f, n)|
    ensures Smooth(f, n)[k] == Advance(f, SMOOTH)
  {
    if n > 0 && k < |Smooth(f, n - 1)| {
      SmoothLuck(f, n - 1, k);
    }
  }

  /** One more step, by which an invocation finishes. */
  lemma FinishStep(s: State, f: nat, luck: Luck)
    requires f < |s.frames| && s.frames[f].pc.FinishLive? && OwnsRow(s.table, s.frames[f]) && luck.ok
    ensures var t := Step(s, Advance(f, luck));
            OnlyMoves(s, t, f) && t.frames[f].pc == Done(if luck.readOk then Succeeded else LiveUnconfirmed)
  {
  }

  // ---- An error over a live row ----

  /** The call, and all steps to the last write. */
  function Upto(projectId: string, project: ProjectRow, trigger: string, n: nat): seq<Action> {
    [Call(projectId, project, true, trigger, "")] + Smooth(0, n)
  }

  lemma CallEnters(s: State, projectId: string, project: ProjectRow, trigger: string, n: nat)
    requires s.frames == [] && n <= SmoothSteps(s.docker)
    ensures var t := Run(s, Upto(projectId, project, trigger, n));
            && |t.frames| == 1 && t.docker == s.docker && t.rootSet == s.rootSet && t.projects == s.projects
            && t.frames[0].job == Job(projectId, project, true, trigger, "", false, None) && t.frames[0].pc == SmoothPc(n, s.docker)
  {
    var call := Call(projectId, project, true, trigger, "");
    RunOne(s, call);
    RunAppend(s, [call], Smooth(0, n));
    var t := Step(s, call);
    assert t.frames == [NewFrame(projectId, project, true, trigger, "", false, None)];
    hide Step, Run, SmoothPc;
    SmoothRunsTo(t, 0, n);
  }

  const PORT_PROJECT := ProjectRow("", false, false)
  const UNTOLD := Luck(true, false, "")

  lemma NoWriteFails(start: State, actions: seq<Action>, projectId: string, trigger: string, n: nat)
    requires actions == Upto(projectId, PORT_PROJECT, trigger, n) + [Advance(0, UNTOLD)]
    ensures !Met(start, actions, 0, WriteFails)
  {
    hide Run, At;
    forall k: nat ensures !MeetsAt(start, actions, 0, k, WriteFails) {
      if StepsAt(start, actions, 0, k) && k + 1 < |actions| {
        SmoothLuck(0, n, k - 1);
      }
    }
  }

  /** A run in which every write is made and the caller gets an error for a row that says "live". */
  lemma UntoldWriteErrsLive(start: State, projectId: string, trigger: string)
    requires Initial(start)
    ensures var actions := Upto(projectId, PORT_PROJECT, trigger, SmoothSteps(start.docker)) + [Advance(0, UNTOLD)];
            var end := Run(start, actions);
            && 0 < |end.frames| && end.frames[0].pc.Done? && !ReturnsNil(end.frames[0].pc.outcome)
            && OwnRow(end.table, end.frames[0], Live) && !Met(start, actions, 0, WriteFails)
  {
    hide Step, EffectOf, OwnRow, Met, Run;
    var front := Upto(projectId, PORT_PROJECT, trigger, SmoothSteps(start.docker));
    var actions := front + [Advance(0, UNTOLD)];
    NoWriteFails(start, actions, projectId, trigger, SmoothSteps(start.docker));
    CallEnters(start, projectId, PORT_PROJECT, trigger, SmoothSteps(start.docker));
    RowIsOwned(start, front, 0);
    FinishStep(Run(start, front), 0, UNTOLD);
    RunStep(start, actions);
    assert actions[..|actions| - 1] == front;
    RunKeepsInv(start, actions);
    hide Inv, OutcomeOk, Terminals;
    FrameFacts(Run(start, actions), 0);
    ErrorByLabel(Run(start, actions).table, Run(start, actions).frames[0], LiveUnconfirmed, Terminals(Run(start, actions).log, 0));
  }

  // ---- A failed health check that ends in a rollback ----

  const UNHEALTHY := Luck(false, true, "unhealthy")

  /** From the failing check to the rollback: three steps. */
  lemma CheckFails(s: State, f: nat)
    requires f < |s.frames| && s.frames[f].pc.Check? && Checked(s.frames[f].job)
    requires OwnsRow(s.table, s.frames[f]) && s.frames[f].pin != "" && !s.frames[f].job.disableRollback
    ensures var t := Run(s, [Advance(f, UNHEALTHY), Advance(f, SMOOTH), Advance(f, SMOOTH)]);
            OnlyMoves(s, t, f) && t.frames[f].pc.Rollback? && t.frames[f].pin == s.frames[f].pin
  {
    hide Run, Opening, Restoring, ShouldPull;
    RunThree(s, Advance(f, UNHEALTHY), Advance(f, SMOOTH), Advance(f, SMOOTH));
    var a := Step(s, Advance(f, UNHEALTHY));
    assert OnlyMoves(s, a, f) && a.frames[f].pc == Fail(HealthError) && a.table == s.table;
    var b := Step(a, Advance(f, SMOOTH));
    assert OnlyMoves(s, b, f) && b.frames[f].pc == FinishFailed(HealthError) && b.table == s.table;
  }

  /** The rollback is announced, and its project read and stored. */
  lemma RollbackStores(s: State, f: nat)
    requires f < |s.frames| && s.frames[f].pc.Rollback? && s.frames[f].job.projectId in s.projects
    ensures var projectId := s.frames[f].job.projectId;
            var t := Run(s, [Advance(f, SMOOTH), Advance(f, SMOOTH), Advance(f, SMOOTH)]);
            && OnlyMoves(s.(projects := t.projects), t, f) && t.frames[f].pc.RbReload?
            && projectId in t.projects && t.projects[projectId].web == s.projects[projectId].web
  {
    hide Run, Opening, Finishing, Applying, TrimSpace;
    RunThree(s, Advance(f, SMOOTH), Advance(f, SMOOTH), Advance(f, SMOOTH));
    var a := Step(s, Advance(f, SMOOTH));
    assert OnlyMoves(s, a, f) && a.frames[f].pc.RbRead?;
    var b := Step(a, Advance(f, SMOOTH));
    assert OnlyMoves(s, b, f) && b.frames[f].pc == RbUpdate(s.projects[s.frames[f].job.projectId]);
  }

  lemma RollbackSpawns(s: State, f: nat)
    requires f < |s.frames| && s.frames[f].pc.RbReload? && s.frames[f].job.projectId in s.projects
    ensures var t, projectId := Step(s, Advance(f, SMOOTH)), s.frames[f].job.projectId;
            && t.docker == s.docker && |t.frames| == |s.frames| + 1 && t.frames[f].pc == Await(|s.frames|)
            && t.frames[|s.frames|].pc.Enter?
            && t.frames[|s.frames|].job == Job(projectId, s.projects[projectId], s.rootSet, "auto-rollback", "system", true, Some(f))
  {
    hide TrimSpace;
  }

  lemma AwaitEnds(s: State, f: nat, c: nat)
    requires f < |s.frames| && c < |s.frames| && s.frames[f].pc == Await(c) && s.frames[c].pc == Done(Succeeded)
    ensures f < |Step(s, Advance(f, SMOOTH)).frames| && Step(s, Advance(f, SMOOTH)).frames[f].pc == Done(RolledBack(c))
  {
    hide TrimSpace;
  }

  /** The run up to the rollback's own invocation. */
  function FailingRun(projectId: string, project: ProjectRow, trigger: string, n: nat): seq<Action> {
    Upto(projectId, project, trigger, n)
    + [Advance(0, UNHEALTHY), Advance(0, SMOOTH), Advance(0, SMOOTH)]
    + [Advance(0, SMOOTH), Advance(0, SMOOTH), Advance(0, SMOOTH)]
    + [Advance(0, SMOOTH)]
  }

  /** The whole run: the rollback is applied, and the first invocation returns. */
  function RollingRun(projectId: string, project: ProjectRow, trigger: string, docker: bool): seq<Action> {
    FailingRun(projectId, project, trigger, SmoothSteps(docker) - 4) + Smooth(1, SmoothSteps(docker)) + [Advance(1, SMOOTH)] + [Advance(0, SMOOTH)]
  }

  lemma {:induction false} SmoothStarts(f: nat, n: nat)
    requires n >= 3
    ensures |Smooth(f, n)| == n && Smooth(f, n)[..3] == [Advance(f, SMOOTH), Advance(f, SMOOTH), Advance(f, SMOOTH)]
  {
    if n == 3 {
      assert Smooth(f, 1) == [Advance(f, SMOOTH)];
      assert Smooth(f, 2) == [Advance(f, SMOOTH), Advance(f, SMOOTH)];
    } else {
      SmoothStarts(f, n - 1);
    }
  }

  lemma FirstThree(projectId: string, project: ProjectRow, trigger: string, n: nat)
    requires n >= 4
    ensures var actions := Upto(projectId, project, trigger, n);
            |actions| > 3 && actions[3] == Advance(0, SMOOTH)
            && actions[..3] == [Call(projectId, project, true, trigger, ""), Advance(0, SMOOTH), Advance(0, SMOOTH)]
  {
    SmoothStarts(0, n);
    assert forall k :: 0 <= k < 3 ==> Smooth(0, n)[k] == Smooth(0, n)[..3][k];
  }

  lemma AtChoice(start: State, projectId: string, project: ProjectRow, trigger: string)
    requires start.frames == []
    ensures var job := Job(projectId, project, true, trigger, "", false, None);
            var s := Run(start, [Call(projectId, project, true, trigger, ""), Advance(0, SMOOTH), Advance(0, SMOOTH)]);
            && |s.frames| == 1 && s.frames[0].pc.Choose? && s.frames[0].job == job
            && s.frames[0].record == Some(start.table.lastId + 1) && s.table == Inserted(start.table, RowOf(job))
  {
    hide Run, PinOf, Applying, Finishing, Restoring, TrimSpace, TriggerOf;
    RunThree(start, Call(projectId, project, true, trigger, ""), Advance(0, SMOOTH), Advance(0, SMOOTH));
  }

  /** The invocation has chosen the fallback of the table that its row was inserted into. */
  lemma PinAtCheck(start: State, projectId: string, project: ProjectRow, trigger: string, n: nat)
    requires Initial(start) && 4 <= n <= SmoothSteps(start.docker)
    ensures var job := Job(projectId, project, true, trigger, "", false, None);
            var t := Run(start, Upto(projectId, project, trigger, n));
            |t.frames| == 1 && t.frames[0].pin == PinOf(Inserted(start.table, RowOf(job)), projectId, start.table.lastId + 1)
  {
    hide Run, PinOf, Inserted, RowOf;
    var actions := Upto(projectId, project, trigger, n);
    CallEnters(start, projectId, project, trigger, n);
    FirstThree(projectId, project, trigger, n);
    AtChoice(start, projectId, project, trigger);
    PinIsFound(start, actions, 0, 3);
  }

  lemma OwnsAtCheck(start: State, actions: seq<Action>, f: nat)
    requires Initial(start) && f < |Run(start, actions).frames| && Run(start, actions).frames[f].pc.Check?
    ensures OwnsRow(Run(start, actions).table, Run(start, actions).frames[f])
  {
    RunKeepsInv(start, actions);
    hide Run, Inv, Terminals;
    FrameFacts(Run(start, actions), f);
  }

  /** Where the rollback's own invocation enters. */
  lemma FailingRunSpawns(start: State, projectId: string, project: ProjectRow, trigger: string)
    requires Initial(start) && start.rootSet && projectId in start.projects && project.web && project.healthCheck
    requires PinOf(Inserted(start.table, RowOf(Job(projectId, project, true, trigger, "", false, None))), projectId, start.table.lastId + 1) != ""
    ensures var t := Run(start, FailingRun(projectId, project, trigger, SmoothSteps(start.docker) - 4));
            && |t.frames| == 2 && t.docker == start.docker && t.frames[0].pc == Await(1)
            && t.frames[1].pc.Enter? && t.frames[1].job.rootSet && t.frames[1].job.parent == Some(0)
  {
    var n := SmoothSteps(start.docker) - 4;
    assert SmoothPc(n, start.docker).Check?;
    hide Run, PinOf, Inserted, RowOf, Step, SmoothPc;
    var upto := Upto(projectId, project, trigger, n);
    var failing := [Advance(0, UNHEALTHY), Advance(0, SMOOTH), Advance(0, SMOOTH)];
    var storing := [Advance(0, SMOOTH), Advance(0, SMOOTH), Advance(0, SMOOTH)];
    CallEnters(start, projectId, project, trigger, n);
    PinAtCheck(start, projectId, project, trigger, n);
    OwnsAtCheck(start, upto, 0);
    var s := Run(start, upto);
    CheckFails(s, 0);
    RunAppend(start, upto, failing);
    RollbackStores(Run(s, failing), 0);
    RunAppend(start, upto + failing, storing);
    var r := Run(start, upto + failing + storing);
    RollbackSpawns(r, 0);
    RunAppend(start, upto + failing + storing, [Advance(0, SMOOTH)]);
    RunOne(r, Advance(0, SMOOTH));
  }

  /** From where the rollback's invocation enters to where it returns. */
  lemma RollbackIsApplied(start: State, failing: seq<Action>)
    requires Initial(start)
    requires var s := Run(start, failing);
             |s.frames| == 2 && s.docker == start.docker && s.frames[0].pc == Await(1) && s.frames[1].pc.Enter? && s.frames[1].job.rootSet
    ensures var t := Run(start, failing + Smooth(1, SmoothSteps(start.docker)) + [Advance(1, SMOOTH)]);
            && |t.frames| == 2 && t.frames[0].pc == Await(1)
            && t.frames[1].pc == Done(Succeeded) && t.frames[1].job == Run(start, failing).frames[1].job
  {
    hide Run, Step, OwnsRow;
    var s := Run(start, failing);
    SmoothRunsTo(s, 1, SmoothSteps(start.docker));
    RunAppend(start, failing, Smooth(1, SmoothSteps(start.docker)));
    var applied := failing + Smooth(1, SmoothSteps(start.docker));
    RowIsOwned(start, applied, 1);
    FinishStep(Run(start, applied), 1, SMOOTH);
    RunAppend(start, applied, [Advance(1, SMOOTH)]);
    RunOne(Run(start, applied), Advance(1, SMOOTH));
  }

  lemma RowOfOutcome(start: State, actions: seq<Action>, f: nat, outcome: Outcome)
    requires Initial(start) && f < |Run(start, actions).frames| && Run(start, actions).frames[f].pc == Done(outcome)
    ensures outcome.RolledBack? ==> OwnRow(Run(start, actions).table, Run(start, actions).frames[f], Failed)
    ensures outcome.Succeeded? ==> OwnRow(Run(start, actions).table, Run(start, actions).frames[f], Live)
  {
    hide Run, OwnRow, Inv, Terminals;
    assert Inv(Run(start, actions)) by { RunKeeps(start, actions); }
    FrameFacts(Run(start, actions), f);
  }

  lemma RunKeeps(start: State, actions: seq<Action>)
    requires Initial(start)
    ensures Inv(Run(start, actions))
  {
    RunKeepsInv(start, actions);
  }

  /** A run in which a deploy fails its health check, rolls back, and ends rolled back: from every start
      that has a fallback for it. */
  lemma FailedCheckRollsBack(start: State, projectId: string, project: ProjectRow, trigger: string)
    requires Initial(start) && start.rootSet && projectId in start.projects && project.web && project.healthCheck
    requires PinOf(Inserted(start.table, RowOf(Job(projectId, project, true, trigger, "", false, None))), projectId, start.table.lastId + 1) != ""
    ensures var end := Run(start, RollingRun(projectId, project, trigger, start.docker));
            && |end.frames| == 2 && end.frames[0].pc == Done(RolledBack(1)) && OwnRow(end.table, end.frames[0], Failed)
            && end.frames[1].pc == Done(Succeeded) && end.frames[1].job.parent == Some(0) && OwnRow(end.table, end.frames[1], Live)
  {
    hide Run, PinOf, Inserted, RowOf, Step, OwnRow, FailingRun, Initial;
    var failing := FailingRun(projectId, project, trigger, SmoothSteps(start.docker) - 4);
    FailingRunSpawns(start, projectId, project, trigger);
    RollbackIsApplied(start, failing);
    var finished := failing + Smooth(1, SmoothSteps(start.docker)) + [Advance(1, SMOOTH)];
    AwaitEnds(Run(start, finished), 0, 1);
    RunAppend(start, finished, [Advance(0, SMOOTH)]);
    RunOne(Run(start, finished), Advance(0, SMOOTH));
    AwaitKeeps(Run(start, finished), 0);
    var all := finished + [Advance(0, SMOOTH)];
    RowOfOutcome(start, all, 0, RolledBack(1));
    RowOfOutcome(start, all, 1, Succeeded);
  }

  lemma AwaitKeeps(s: State, f: nat)
    requires f < |s.frames| && s.frames[f].pc.Await?
    ensures var t := Step(s, Advance(f, SMOOTH)); |t.frames| == |s.frames| && forall g :: 0 <= g < |s.frames| && g != f ==> t.frames[g] == s.frames[g]
  {
    hide TrimSpace;
  }
}
