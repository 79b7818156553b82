/** What the runs of the deploy machine say about the answers of the store and about other writers: the
    moments of a run at which an invocation stepped, and what follows from them. */
module DeployRuns {
  import opened Text
  import opened DeployHistory
  import opened DeployMachine

  /** The state before action k of a run. */
  function At(start: State, actions: seq<Action>, k: nat): State
    requires k <= |actions|
  {
    Run(start, actions[..k])
  }

  /** Action k is a step of invocation f. */
  predicate StepsAt(start: State, actions: seq<Action>, f: nat, k: nat) {
    k < |actions| && actions[k].Advance? && actions[k].frame == f && f < |At(start, actions, k).frames|
  }

  function PcAt(start: State, actions: seq<Action>, f: nat, k: nat): Pc
    requires StepsAt(start, actions, f, k)
  {
    At(start, actions, k).frames[f].pc
  }

  lemma FrontAt(start: State, actions: seq<Action>, k: nat)
    requires k < |actions|
    ensures At(start, actions, k) == At(start, actions[..|actions| - 1], k)
    ensures At(start, actions, |actions| - 1) == Run(start, actions[..|actions| - 1])
  {
    assert actions[..|actions| - 1][..k] == actions[..k];
  }

  lemma FrontSteps(start: State, actions: seq<Action>, f: nat, k: nat)
    requires k + 1 < |actions|
    ensures StepsAt(start, actions, f, k) <==> StepsAt(start, actions[..|actions| - 1], f, k)
    ensures StepsAt(start, actions, f, k) ==> PcAt(start, actions, f, k) == PcAt(start, actions[..|actions| - 1], f, k)
  {
    FrontAt(start, actions, k);
  }

  lemma StepKeepsFrames(s: State, action: Action)
    ensures |s.frames| <= |Step(s, action).frames|
    ensures forall f :: 0 <= f < |s.frames| && !(action.Advance? && action.frame == f) ==> Step(s, action).frames[f] == s.frames[f]
  {
    hide EffectOf;
  }

  /** One more action is one more step of the machine. */
  lemma RunStep(start: State, actions: seq<Action>)
    requires actions != []
    ensures Run(start, actions) == Step(Run(start, actions[..|actions| - 1]), actions[|actions| - 1])
  {
  }

  lemma {:induction false} FramesGrow(start: State, actions: seq<Action>, k: nat)
    requires k <= |actions|
    ensures |At(start, actions, k).frames| <= |Run(start, actions).frames|
  {
    hide Step;
    if k < |actions| {
      FrontAt(start, actions, k);
      FramesGrow(start, actions[..|actions| - 1], k);
      StepKeepsFrames(Run(start, actions[..|actions| - 1]), actions[|actions| - 1]);
    } else {
      assert actions[..k] == actions;
    }
  }

  // ---- What the store answered, and what an invocation came to ----

  /** Something that a step may meet: the state, the invocation that steps, and what the outside world
      decides. */
  type Meeting = (State, Frame, Luck) -> bool

  /** Action k is a step of invocation f that meets it. */
  predicate MeetsAt(start: State, actions: seq<Action>, f: nat, k: nat, what: Meeting) {
    StepsAt(start, actions, f, k) && what(At(start, actions, k), At(start, actions, k).frames[f], actions[k].luck)
  }

  /** In the run, invocation f met it. */
  ghost predicate Met(start: State, actions: seq<Action>, f: nat, what: Meeting) {
    exists k: nat :: MeetsAt(start, actions, f, k, what)
  }

  /** A mark of invocations that exactly the steps that meet something leave, and that then stays. */
  ghost predicate Marks(mark: Frame -> bool, what: Meeting) {
    && (forall fr: Frame :: IsNew(fr) ==> !mark(fr))
    && (forall s: State, f: nat, luck: Luck :: Inv(s) && f < |s.frames| ==>
          (mark(EffectOf(s, f, luck).frame) <==> mark(s.frames[f]) || what(s, s.frames[f], luck)))
  }

  lemma NewFrameIsNew(s: State, action: Action, f: nat)
    requires |s.frames| <= f < |Step(s, action).frames|
    ensures IsNew(Step(s, action).frames[f])
  {
    if action.Advance? {
      LocalLinks(s, s.frames[action.frame], action.frame, ChildOutcome(s, s.frames[action.frame]), action.luck);
      hide Local;
    }
  }

  lemma NotYetStepped(start: State, actions: seq<Action>, f: nat)
    requires actions != [] && f >= |Run(start, actions[..|actions| - 1]).frames|
    ensures forall k: nat :: !StepsAt(start, actions, f, k)
  {
    hide Run, At;
    forall k: nat | k < |actions| ensures !StepsAt(start, actions, f, k) {
      FramesGrow(start, actions[..|actions| - 1], k);
      FrontAt(start, actions, k);
    }
  }

  /** Over one more action, what was met before is what was met, and what the last action meets. */
  lemma MetOneMore(start: State, actions: seq<Action>, front: seq<Action>, f: nat, what: Meeting)
    requires actions != [] && front == actions[..|actions| - 1]
    ensures Met(start, actions, f, what) <==> Met(start, front, f, what) || MeetsAt(start, actions, f, |front|, what)
  {
    hide At, Run;
    forall k: nat | k < |front| ensures MeetsAt(start, actions, f, k, what) <==> MeetsAt(start, front, f, k, what) {
      FrontAt(start, actions, k);
    }
    forall k: nat ensures MeetsAt(start, actions, f, k, what) ==> k < |front| || k == |front| {
    }
    if Met(start, front, f, what) {
      var k: nat :| MeetsAt(start, front, f, k, what);
      assert k < |front| && MeetsAt(start, actions, f, k, what);
    }
  }

  lemma LastMeets(start: State, actions: seq<Action>, front: seq<Action>, f: nat, mark: Frame -> bool, what: Meeting)
    requires actions != [] && front == actions[..|actions| - 1] && Marks(mark, what)
    requires Inv(Run(start, front)) && f < |Run(start, front).frames|
    ensures f < |Run(start, actions).frames|
    ensures mark(Run(start, actions).frames[f]) <==> mark(Run(start, front).frames[f]) || MeetsAt(start, actions, f, |front|, what)
  {
    hide Run, Inv, At, Step, Marks;
    var s, last := Run(start, front), actions[|front|];
    FrontAt(start, actions, |front|);
    RunStep(start, actions);
    StepKeepsFrames(s, last);
    StepMarked(s, last, f, mark, what);
  }

  /** One action leaves the mark on an invocation exactly when it is a step of it that meets what leaves it. */
  lemma StepMarked(s: State, action: Action, f: nat, mark: Frame -> bool, what: Meeting)
    requires Marks(mark, what) && Inv(s) && f < |s.frames| && f < |Step(s, action).frames|
    ensures mark(Step(s, action).frames[f])
            <==> mark(s.frames[f]) || (action.Advance? && action.frame == f && what(s, s.frames[f], action.luck))
  {
    hide Inv, EffectOf;
    StepKeepsFrames(s, action);
  }

  /** In every run, an invocation carries the mark exactly when it met what leaves it. */
  lemma {:induction false} MarkedIffMet(start: State, actions: seq<Action>, f: nat, mark: Frame -> bool, what: Meeting)
    requires Initial(start) && Marks(mark, what) && f < |Run(start, actions).frames|
    ensures mark(Run(start, actions).frames[f]) <==> Met(start, actions, f, what)
  {
    hide Step, Inv, At, Terminals, Met, IsNew;
    if actions != [] {
      var front := actions[..|actions| - 1];
      RunKeepsInv(start, front);
      MetOneMore(start, actions, front, f, what);
      if f < |Run(start, front).frames| {
        MarkedIffMet(start, front, f, mark, what);
        LastMeets(start, actions, front, f, mark, what);
      } else {
        NewFrameIsNew(Run(start, front), actions[|front|], f);
        NeverMet(start, actions, front, f, what);
      }
    }
  }

  lemma NeverMet(start: State, actions: seq<Action>, front: seq<Action>, f: nat, what: Meeting)
    requires actions != [] && front == actions[..|actions| - 1] && f >= |Run(start, front).frames|
    ensures !Met(start, actions, f, what)
  {
    hide Run, At;
    NotYetStepped(start, actions, f);
  }

  /** An invocation that has returned stays as it is. */
  lemma DoneStays(s: State, f: nat, luck: Luck)
    requires f < |s.frames| && s.frames[f].pc.Done?
    ensures EffectOf(s, f, luck).frame == s.frames[f]
  {
  }

  // ---- When a row stays running, and when an error goes with a live one ----

  predicate Finishes(pc: Pc) {
    pc.FinishLive? || pc.FinishFailed?
  }

  /** The store inserted the new row and then could not read it back. */
  predicate ReadBackFails(s: State, fr: Frame, luck: Luck) {
    fr.pc.Start? && luck.ok && !luck.readOk
  }

  /** The store did not make a write of the row that it was asked for. */
  predicate WriteFails(s: State, fr: Frame, luck: Luck) {
    (fr.pc.Start? || Finishes(fr.pc)) && !luck.ok
  }

  /** The store leaves the row without its last status. */
  predicate LetsDown(s: State, fr: Frame, luck: Luck) {
    ReadBackFails(s, fr, luck) || (Finishes(fr.pc) && !luck.ok)
  }

  /** The store wrote "live" and then could not tell that it had. */
  predicate LiveUntold(s: State, fr: Frame, luck: Luck) {
    fr.pc.FinishLive? && luck.ok && !luck.readOk
  }

  predicate LeftWithRow(fr: Frame) {
    fr.pc.Done? && LeavesRunning(fr.pc.outcome) && fr.record.Some?
  }

  predicate ErredLive(fr: Frame) {
    fr.pc.Done? && fr.pc.outcome.LiveUnconfirmed?
  }

  lemma OpeningMarks(s: State, fr: Frame, luck: Luck)
    requires !fr.pc.Done? && ((fr.pc.Enter? || fr.pc.Start?) ==> fr.record.None?)
    ensures LeftWithRow(Opening(s, fr, luck).frame) <==> ReadBackFails(s, fr, luck)
    ensures !ErredLive(Opening(s, fr, luck).frame)
  {
    hide PinOf, TriggerOf, TrimSpace;
  }

  lemma FinishingMarks(s: State, fr: Frame, luck: Luck)
    requires OwnsRow(s.table, fr) && (Finishes(fr.pc) || fr.pc.Fail?)
    ensures LeftWithRow(Finishing(s, fr, luck).frame) <==> Finishes(fr.pc) && !luck.ok
    ensures ErredLive(Finishing(s, fr, luck).frame) <==> LiveUntold(s, fr, luck)
  {
  }

  lemma OthersMarkNothing(s: State, fr: Frame, self: nat, child: Option<Outcome>, luck: Luck)
    requires !fr.pc.Done?
    ensures !LeftWithRow(Applying(s, fr, luck).frame) && !LeftWithRow(Restoring(s, fr, self, child, luck).frame)
    ensures !ErredLive(Applying(s, fr, luck).frame) && !ErredLive(Restoring(s, fr, self, child, luck).frame)
  {
    hide TrimSpace, ShouldPull;
  }

  lemma RowsByNow(t: Table, fr: Frame, terminals: seq<Stage>)
    requires FrameOk(t, fr, terminals)
    ensures fr.pc.Enter? || fr.pc.Start? ==> fr.record.None?
    ensures Finishes(fr.pc) || fr.pc.Fail? ==> OwnsRow(t, fr)
  {
  }

  lemma StepMarks(s: State, f: nat, luck: Luck)
    requires Inv(s) && f < |s.frames| && !s.frames[f].pc.Done?
    ensures LeftWithRow(EffectOf(s, f, luck).frame) <==> LetsDown(s, s.frames[f], luck)
    ensures ErredLive(EffectOf(s, f, luck).frame) <==> LiveUntold(s, s.frames[f], luck)
  {
    hide Opening, Applying, Finishing, Restoring, LeftWithRow, ErredLive, Inv, FrameOk, Terminals, OwnsRow;
    var fr, child := s.frames[f], ChildOutcome(s, s.frames[f]);
    FrameFacts(s, f);
    RowsByNow(s.table, fr, Terminals(s.log, f));
    OthersMarkNothing(s, fr, f, child, luck);
    if Finishes(fr.pc) || fr.pc.Fail? {
      FinishingMarks(s, fr, luck);
    } else {
      OpeningMarks(s, fr, luck);
    }
  }

  lemma StoreMarks()
    ensures Marks(LeftWithRow, LetsDown) && Marks(ErredLive, LiveUntold)
  {
    hide Inv, EffectOf, Step;
    forall s: State, f: nat, luck: Luck | Inv(s) && f < |s.frames|
      ensures LeftWithRow(EffectOf(s, f, luck).frame) <==> LeftWithRow(s.frames[f]) || LetsDown(s, s.frames[f], luck)
      ensures ErredLive(EffectOf(s, f, luck).frame) <==> ErredLive(s.frames[f]) || LiveUntold(s, s.frames[f], luck)
    {
      if s.frames[f].pc.Done? {
        DoneStays(s, f, luck);
      } else {
        StepMarks(s, f, luck);
      }
    }
  }

  /** In every run, an invocation that has returned leaves its row running exactly when, at some step of
      it, the store inserted the row and could not read it back, or failed the row's last write. */
  lemma StaysRunningIff(start: State, actions: seq<Action>, f: nat)
    requires Initial(start)
    requires f < |Run(start, actions).frames| && Run(start, actions).frames[f].pc.Done?
    ensures var end := Run(start, actions); OwnRow(end.table, end.frames[f], Running) <==> Met(start, actions, f, LetsDown)
  {
    hide Run, Met, OwnRow, Marks;
    OutcomesAgree(start, actions, f);
    StoreMarks();
    MarkedIffMet(start, actions, f, LeftWithRow, LetsDown);
  }

  /** So, when every write of it was made, its row stays running exactly when the new row could not be
      read back. */
  lemma WithWritesMade(start: State, actions: seq<Action>, f: nat)
    requires Initial(start) && !Met(start, actions, f, WriteFails)
    requires f < |Run(start, actions).frames| && Run(start, actions).frames[f].pc.Done?
    ensures var end := Run(start, actions); OwnRow(end.table, end.frames[f], Running) <==> Met(start, actions, f, ReadBackFails)
  {
    hide Run, At, StepsAt, OwnRow;
    StaysRunningIff(start, actions, f);
    forall k: nat ensures MeetsAt(start, actions, f, k, LetsDown) <==> MeetsAt(start, actions, f, k, ReadBackFails) {
      assert !MeetsAt(start, actions, f, k, WriteFails);
    }
  }

  lemma ErrorByLabel(t: Table, fr: Frame, outcome: Outcome, terminals: seq<Stage>)
    requires OutcomeOk(t, fr, outcome, terminals) && fr.pc == Done(outcome) && !ReturnsNil(outcome)
    ensures fr.record.None? || OwnRow(t, fr, Failed) <==> !LeftWithRow(fr) && !ErredLive(fr)
    ensures OwnRow(t, fr, Live) <==> ErredLive(fr)
  {
    hide TriggerOf;
  }

  /** In every run, an invocation that has returned an error leaves a failed row or none exactly when the
      store never left the row without its last status and never wrote "live" without telling; and the
      row says "live" under the error exactly when it did the latter. */
  lemma ErrorMeansFailedIff(start: State, actions: seq<Action>, f: nat)
    requires Initial(start)
    requires f < |Run(start, actions).frames| && Run(start, actions).frames[f].pc.Done?
    requires !ReturnsNil(Run(start, actions).frames[f].pc.outcome)
    ensures var end := Run(start, actions);
            && (end.frames[f].record.None? || OwnRow(end.table, end.frames[f], Failed)
                <==> !Met(start, actions, f, LetsDown) && !Met(start, actions, f, LiveUntold))
            && (OwnRow(end.table, end.frames[f], Live) <==> Met(start, actions, f, LiveUntold))
  {
    RunKeepsInv(start, actions);
    var end := Run(start, actions);
    hide Run, Met, OwnRow, Marks, Inv, Terminals, LeftWithRow, ErredLive, OutcomeOk;
    FrameFacts(end, f);
    ErrorByLabel(end.table, end.frames[f], end.frames[f].pc.outcome, Terminals(end.log, f));
    StoreMarks();
    MarkedIffMet(start, actions, f, LeftWithRow, LetsDown);
    MarkedIffMet(start, actions, f, ErredLive, LiveUntold);
  }

  // ---- What an automatic rollback goes back to ----

  /** Past the choice of a fallback. */
  predicate HasChosen(pc: Pc) {
    !pc.Enter? && !pc.Start? && !pc.Choose?
  }

  /** How one step may change an invocation's pin: only by choosing it. */
  predicate ChoiceKept(s: State, fr: Frame, next: Frame) {
    && next.job == fr.job
    && (HasChosen(fr.pc) ==> HasChosen(next.pc) && next.pin == fr.pin && next.record == fr.record)
    && (next.pin != fr.pin ==>
          && fr.pc.Choose? && HasChosen(next.pc)
          && (next.pin != "" ==> fr.record.Some? && next.pin == PinOf(s.table, fr.job.projectId, fr.record.value)))
  }

  lemma OpeningKeepsChoice(s: State, fr: Frame, luck: Luck)
    ensures ChoiceKept(s, fr, Opening(s, fr, luck).frame)
  {
    hide PinOf, TriggerOf, TrimSpace;
  }

  lemma ApplyingKeepsChoice(s: State, fr: Frame, luck: Luck)
    ensures ChoiceKept(s, fr, Applying(s, fr, luck).frame)
  {
    hide PinOf, ShouldPull, TrimSpace, OwnsRow, EffectOf;
  }

  lemma FinishingKeepsChoice(s: State, fr: Frame, luck: Luck)
    ensures ChoiceKept(s, fr, Finishing(s, fr, luck).frame)
  {
    hide PinOf;
  }

  lemma RestoringKeepsChoice(s: State, fr: Frame, self: nat, child: Option<Outcome>, luck: Luck)
    ensures ChoiceKept(s, fr, Restoring(s, fr, self, child, luck).frame)
    ensures Restoring(s, fr, self, child, luck).frame.pc.RbReload? ==> fr.pc.RbReload? || (fr.pc.RbUpdate? && luck.ok)
  {
    hide PinOf, TrimSpace;
  }

  lemma LocalKeepsChoice(s: State, fr: Frame, self: nat, child: Option<Outcome>, luck: Luck)
    ensures ChoiceKept(s, fr, Local(s, fr, self, child, luck).frame)
  {
    hide ChoiceKept, Opening, Applying, Finishing, Restoring;
    OpeningKeepsChoice(s, fr, luck);
    ApplyingKeepsChoice(s, fr, luck);
    FinishingKeepsChoice(s, fr, luck);
    RestoringKeepsChoice(s, fr, self, child, luck);
  }

  /** Once chosen, an invocation's pin and row stay. */
  lemma {:induction false} ChoiceStays(start: State, actions: seq<Action>, f: nat, k: nat)
    requires k <= |actions| && f < |At(start, actions, k).frames| && HasChosen(At(start, actions, k).frames[f].pc)
    ensures f < |Run(start, actions).frames|
    ensures var before, now := At(start, actions, k).frames[f], Run(start, actions).frames[f];
            HasChosen(now.pc) && now.pin == before.pin && now.record == before.record && now.job == before.job
  {
    hide Step, Local, HasChosen;
    if k == |actions| {
      assert actions[..k] == actions;
    } else {
      var front, last := actions[..|actions| - 1], actions[|actions| - 1];
      FrontAt(start, actions, k);
      ChoiceStays(start, front, f, k);
      StepKeepsChoice(Run(start, front), last, f);
    }
  }

  lemma StepKeepsChoice(s: State, action: Action, f: nat)
    requires f < |s.frames|
    ensures f < |Step(s, action).frames| && Step(s, action).frames[f].job == s.frames[f].job
    ensures var before, now := s.frames[f], Step(s, action).frames[f];
            HasChosen(before.pc) ==> HasChosen(now.pc) && now.pin == before.pin && now.record == before.record
  {
    hide Local, HasChosen, PinOf;
    StepKeepsFrames(s, action);
    if action.Advance? && action.frame == f {
      LocalKeepsChoice(s, s.frames[f], f, ChildOutcome(s, s.frames[f]), action.luck);
    }
  }

  /** At step k, the invocation took the fallback of that moment's table for its pin. */
  predicate ChosePin(start: State, actions: seq<Action>, f: nat, k: nat, pin: string) {
    && StepsAt(start, actions, f, k) && PcAt(start, actions, f, k).Choose?
    && var s := At(start, actions, k);
       s.frames[f].record.Some? && pin == PinOf(s.table, s.frames[f].job.projectId, s.frames[f].record.value)
  }

  lemma FrontChose(start: State, actions: seq<Action>, front: seq<Action>, f: nat, k: nat, pin: string)
    requires actions != [] && front == actions[..|actions| - 1] && ChosePin(start, front, f, k, pin)
    ensures ChosePin(start, actions, f, k, pin)
  {
    hide Run;
    FrontSteps(start, actions, f, k);
    FrontAt(start, actions, k);
  }

  lemma {:induction false} PinWasChosen(start: State, actions: seq<Action>, f: nat) returns (k: nat)
    requires Initial(start) && f < |Run(start, actions).frames| && Run(start, actions).frames[f].pin != ""
    ensures ChosePin(start, actions, f, k, Run(start, actions).frames[f].pin)
  {
    hide Step, Local, ChosePin, Inv;
    k := 0;
    if actions != [] {
      var front, last, n := actions[..|actions| - 1], actions[|actions| - 1], |actions| - 1;
      var s := Run(start, front);
      RunKeepsInv(start, front);
      if f < |s.frames| {
        StepKeepsFrames(s, last);
        if last.Advance? && last.frame == f && Run(start, actions).frames[f].pin != s.frames[f].pin {
          k := n;
          LastChose(start, actions, front, f);
        } else {
          k := PinWasChosen(start, front, f);
          FrontChose(start, actions, front, f, k, s.frames[f].pin);
        }
      } else {
        NewFrameIsNew(s, last, f);
      }
    }
  }

  lemma LastChose(start: State, actions: seq<Action>, front: seq<Action>, f: nat)
    requires actions != [] && front == actions[..|actions| - 1] && f < |Run(start, front).frames|
    requires actions[|front|].Advance? && actions[|front|].frame == f
    requires var pin := Step(Run(start, front), actions[|front|]).frames[f].pin; pin != "" && pin != Run(start, front).frames[f].pin
    ensures ChosePin(start, actions, f, |front|, Step(Run(start, front), actions[|front|]).frames[f].pin)
  {
    hide Local, Run, PinOf;
    var s := Run(start, front);
    LocalKeepsChoice(s, s.frames[f], f, ChildOutcome(s, s.frames[f]), actions[|front|].luck);
  }

  /** At step u, the invocation stored its pin as the project's image. */
  predicate StoredPin(start: State, actions: seq<Action>, f: nat, u: nat) {
    StepsAt(start, actions, f, u) && PcAt(start, actions, f, u).RbUpdate? && actions[u].luck.ok
  }

  lemma StoredPinIsImage(start: State, actions: seq<Action>, f: nat, u: nat)
    requires StoredPin(start, actions, f, u)
    ensures var before, now, fr := At(start, actions, u), At(start, actions, u + 1), At(start, actions, u).frames[f];
            fr.job.projectId in now.projects && now.projects[fr.job.projectId].imageRef == TrimSpace(fr.pin)
  {
    hide Run, TrimSpace, Opening, Applying, Finishing;
    FrontAt(start, actions[..u + 1], u);
    assert actions[..u + 1][..u] == actions[..u];
    RunStep(start, actions[..u + 1]);
  }

  lemma OthersDoNotReload(s: State, fr: Frame, luck: Luck)
    requires !fr.pc.RbReload?
    ensures !Opening(s, fr, luck).frame.pc.RbReload? && !Applying(s, fr, luck).frame.pc.RbReload? && !Finishing(s, fr, luck).frame.pc.RbReload?
  {
    hide PinOf, TriggerOf, TrimSpace, ShouldPull;
  }

  lemma ReloadLeaves(s: State, fr: Frame, self: nat, child: Option<Outcome>, luck: Luck)
    requires fr.pc.RbReload?
    ensures !Local(s, fr, self, child, luck).frame.pc.RbReload?
  {
    hide TrimSpace;
  }

  lemma LocalReachesReload(s: State, fr: Frame, self: nat, child: Option<Outcome>, luck: Luck)
    ensures Local(s, fr, self, child, luck).frame.pc.RbReload? ==> fr.pc.RbUpdate? && luck.ok
  {
    hide Opening, Applying, Finishing, Restoring;
    if fr.pc.RbReload? {
      ReloadLeaves(s, fr, self, child, luck);
    } else {
      OthersDoNotReload(s, fr, luck);
      RestoringKeepsChoice(s, fr, self, child, luck);
    }
  }

  /** An invocation about to reload has stored its pin. */
  lemma {:induction false} ReloadFollowsStore(start: State, actions: seq<Action>, f: nat) returns (u: nat)
    requires Initial(start) && f < |Run(start, actions).frames| && Run(start, actions).frames[f].pc.RbReload?
    ensures StoredPin(start, actions, f, u)
  {
    hide Step, Local;
    u := 0;
    if actions != [] {
      var front, last, n := actions[..|actions| - 1], actions[|actions| - 1], |actions| - 1;
      var s := Run(start, front);
      if f < |s.frames| {
        StepKeepsFrames(s, last);
        if last.Advance? && last.frame == f {
          u := n;
          LastStored(start, actions, front, f);
        } else {
          u := ReloadFollowsStore(start, front, f);
          FrontSteps(start, actions, f, u);
        }
      } else {
        NewFrameIsNew(s, last, f);
      }
    }
  }

  lemma LastStored(start: State, actions: seq<Action>, front: seq<Action>, f: nat)
    requires actions != [] && front == actions[..|actions| - 1] && f < |Run(start, front).frames|
    requires actions[|front|].Advance? && actions[|front|].frame == f
    requires Step(Run(start, front), actions[|front|]).frames[f].pc.RbReload?
    ensures StoredPin(start, actions, f, |front|)
  {
    hide Local, Run;
    var s := Run(start, front);
    LocalReachesReload(s, s.frames[f], f, ChildOutcome(s, s.frames[f]), actions[|front|].luck);
  }

  /** At step r, the invocation reloaded the project and started invocation c with it. */
  predicate Spawned(start: State, actions: seq<Action>, f: nat, r: nat, c: nat, job: Job) {
    && StepsAt(start, actions, f, r) && PcAt(start, actions, f, r).RbReload?
    && var s := At(start, actions, r);
       var projectId := s.frames[f].job.projectId;
       && c == |s.frames| && projectId in s.projects
       && job == Job(projectId, s.projects[projectId], s.rootSet, "auto-rollback", "system", true, Some(f))
  }

  lemma LocalSpawns(s: State, fr: Frame, self: nat, child: Option<Outcome>, luck: Luck)
    ensures var e := Local(s, fr, self, child, luck);
            e.spawned.Some? ==>
              && fr.pc.RbReload? && fr.job.projectId in s.projects
              && e.spawned.value.job == Job(fr.job.projectId, s.projects[fr.job.projectId], s.rootSet, "auto-rollback", "system", true, Some(self))
  {
    hide PinOf, TriggerOf, TrimSpace, ShouldPull;
  }

  lemma {:induction false} ChildWasSpawned(start: State, actions: seq<Action>, c: nat) returns (r: nat)
    requires Initial(start) && c < |Run(start, actions).frames| && Run(start, actions).frames[c].job.parent.Some?
    ensures var job := Run(start, actions).frames[c].job; Spawned(start, actions, job.parent.value, r, c, job)
  {
    hide Step, Local, Spawned;
    r := 0;
    if actions != [] {
      var front, last, n := actions[..|actions| - 1], actions[|actions| - 1], |actions| - 1;
      var s := Run(start, front);
      if c < |s.frames| {
        StepKeepsChoice(s, last, c);
        r := ChildWasSpawned(start, front, c);
        FrontSpawned(start, actions, front, s.frames[c].job.parent.value, r, c, s.frames[c].job);
      } else {
        r := n;
        LastSpawned(start, actions, front, c);
      }
    }
  }

  lemma FrontSpawned(start: State, actions: seq<Action>, front: seq<Action>, f: nat, r: nat, c: nat, job: Job)
    requires actions != [] && front == actions[..|actions| - 1] && Spawned(start, front, f, r, c, job)
    ensures Spawned(start, actions, f, r, c, job)
  {
    hide Run;
    FrontSteps(start, actions, f, r);
    FrontAt(start, actions, r);
  }

  lemma LastSpawned(start: State, actions: seq<Action>, front: seq<Action>, c: nat)
    requires actions != [] && front == actions[..|actions| - 1]
    requires |Run(start, front).frames| <= c < |Step(Run(start, front), actions[|front|]).frames|
    requires Step(Run(start, front), actions[|front|]).frames[c].job.parent.Some?
    ensures var job := Step(Run(start, front), actions[|front|]).frames[c].job; Spawned(start, actions, job.parent.value, |front|, c, job)
  {
    hide Local, Run;
    var s, last := Run(start, front), actions[|front|];
    if last.Advance? {
      LocalSpawns(s, s.frames[last.frame], last.frame, ChildOutcome(s, s.frames[last.frame]), last.luck);
    }
  }

  /** Action k writes a project. */
  predicate Writes(start: State, actions: seq<Action>, k: nat, projectId: string) {
    k < |actions| &&
    match actions[k]
    case Edit(editedId, _) => editedId == projectId
    case Advance(g, luck) =>
      var s := At(start, actions, k);
      g < |s.frames| && s.frames[g].pc.RbUpdate? && luck.ok && s.frames[g].job.projectId == projectId
    case _ => false
  }

  lemma LocalWrites(s: State, fr: Frame, self: nat, child: Option<Outcome>, luck: Luck, projectId: string)
    requires !(fr.pc.RbUpdate? && luck.ok && fr.job.projectId == projectId)
    ensures var e := Local(s, fr, self, child, luck);
            (projectId in e.projects <==> projectId in s.projects) && (projectId in s.projects ==> e.projects[projectId] == s.projects[projectId])
  {
    hide PinOf, TriggerOf, TrimSpace, ShouldPull;
  }

  lemma StepLeavesProject(start: State, actions: seq<Action>, k: nat, projectId: string)
    requires k < |actions| && !Writes(start, actions, k, projectId) && projectId in At(start, actions, k).projects
    ensures var before, now := At(start, actions, k).projects, At(start, actions, k + 1).projects;
            projectId in now && now[projectId] == before[projectId]
  {
    hide Local, Run;
    var s := At(start, actions, k);
    assert actions[..k + 1][..k] == actions[..k];
    RunStep(start, actions[..k + 1]);
    if actions[k].Advance? && actions[k].frame < |s.frames| {
      var fr := s.frames[actions[k].frame];
      LocalWrites(s, fr, actions[k].frame, ChildOutcome(s, fr), actions[k].luck, projectId);
    }
  }

  lemma {:induction false} UnwrittenStays(start: State, actions: seq<Action>, i: nat, j: nat, projectId: string)
    requires i <= j <= |actions| && projectId in At(start, actions, i).projects
    requires forall k :: i <= k < j ==> !Writes(start, actions, k, projectId)
    ensures var before, now := At(start, actions, i).projects, At(start, actions, j).projects;
            projectId in now && now[projectId] == before[projectId]
    decreases j
  {
    hide At, Writes;
    if i < j {
      UnwrittenStays(start, actions, i, j - 1, projectId);
      StepLeavesProject(start, actions, j - 1, projectId);
    }
  }

  /** How a rollback came about: its parent p chose its pin at step k, stored it at u and started it at
      r; and it applies the pin, unless something else wrote the project between u and r. */
  ghost predicate RollsBackTo(start: State, actions: seq<Action>, p: nat, c: nat, k: nat, u: nat, r: nat) {
    && k < u < r < |actions|
    && p < |Run(start, actions).frames| && c < |Run(start, actions).frames|
    && var parent, child := Run(start, actions).frames[p], Run(start, actions).frames[c];
       && ChosePin(start, actions, p, k, parent.pin)
       && StoredPin(start, actions, p, u)
       && Spawned(start, actions, p, r, c, child.job)
       && ((forall j :: u < j < r ==> !Writes(start, actions, j, parent.job.projectId)) ==>
             child.job.project.imageRef == TrimSpace(parent.pin))
  }

  lemma PrefixAt(start: State, actions: seq<Action>, n: nat, k: nat)
    requires k <= n <= |actions|
    ensures At(start, actions[..n], k) == At(start, actions, k)
    ensures At(start, actions, n) == Run(start, actions[..n])
  {
    assert actions[..n][..k] == actions[..k];
  }

  lemma PrefixStored(start: State, actions: seq<Action>, n: nat, f: nat, u: nat)
    requires n <= |actions| && StoredPin(start, actions[..n], f, u)
    ensures u < n && StoredPin(start, actions, f, u)
  {
    hide At;
    PrefixAt(start, actions, n, u);
  }

  lemma PrefixChose(start: State, actions: seq<Action>, n: nat, f: nat, k: nat, pin: string)
    requires n <= |actions| && ChosePin(start, actions[..n], f, k, pin)
    ensures k < n && ChosePin(start, actions, f, k, pin)
  {
    hide At, PinOf;
    PrefixAt(start, actions, n, k);
  }

  lemma StoringHasPin(start: State, actions: seq<Action>, f: nat, u: nat)
    requires Initial(start) && StoredPin(start, actions, f, u)
    ensures At(start, actions, u).frames[f].pin != "" && HasChosen(At(start, actions, u).frames[f].pc)
  {
    RunKeepsInv(start, actions[..u]);
    hide Inv, Run, OwnRow;
    FrameFacts(At(start, actions, u), f);
  }

  /** In every run, every automatic rollback comes about like this. */
  lemma RollbackGoesBack(start: State, actions: seq<Action>, c: nat) returns (k: nat, u: nat, r: nat)
    requires Initial(start) && c < |Run(start, actions).frames| && Run(start, actions).frames[c].job.parent.Some?
    ensures RollsBackTo(start, actions, Run(start, actions).frames[c].job.parent.value, c, k, u, r)
  {
    var child := Run(start, actions).frames[c];
    var p := child.job.parent.value;
    r := ChildWasSpawned(start, actions, c);
    PrefixAt(start, actions, r, r);
    u := ReloadFollowsStore(start, actions[..r], p);
    PrefixStored(start, actions, r, p, u);
    StoringHasPin(start, actions, p, u);
    PrefixAt(start, actions, u, u);
    k := PinWasChosen(start, actions[..u], p);
    PrefixChose(start, actions, u, p, k, At(start, actions, u).frames[p].pin);
    hide Run, At, ChosePin, Writes, TrimSpace;
    ChoiceStays(start, actions, p, u);
    if forall j :: u < j < r ==> !Writes(start, actions, j, Run(start, actions).frames[p].job.projectId) {
      PinIsApplied(start, actions, p, c, u, r, child.job);
    }
  }

  lemma PinIsApplied(start: State, actions: seq<Action>, p: nat, c: nat, u: nat, r: nat, job: Job)
    requires u < r && StoredPin(start, actions, p, u) && Spawned(start, actions, p, r, c, job)
    requires HasChosen(At(start, actions, u).frames[p].pc)
    requires forall j :: u < j < r ==> !Writes(start, actions, j, At(start, actions, u).frames[p].job.projectId)
    ensures job.project.imageRef == TrimSpace(At(start, actions, u).frames[p].pin)
  {
    hide Run, Writes, TrimSpace, HasChosen;
    StoredPinIsImage(start, actions, p, u);
    PrefixAt(start, actions, r, u);
    PrefixAt(start, actions, r, r);
    ChoiceStays(start, actions[..r], p, u);
    UnwrittenStays(start, actions, u + 1, r, At(start, actions, u).frames[p].job.projectId);
  }

  lemma UpdateFollowsRead(s: State, action: Action, f: nat)
    requires f < |Step(s, action).frames| && Step(s, action).frames[f].pc.RbUpdate?
    ensures f < |s.frames|
    ensures s.frames[f] == Step(s, action).frames[f]
            || (action.Advance? && action.frame == f && s.frames[f].pc.RbRead? && s.frames[f].job == Step(s, action).frames[f].job
                && s.frames[f].job.projectId in s.projects
                && Step(s, action).frames[f].pc.read == s.projects[s.frames[f].job.projectId])
  {
    if f >= |s.frames| {
      NewFrameIsNew(s, action, f);
    } else if action.Advance? && action.frame == f {
      LocalReads(s, s.frames[f], f, ChildOutcome(s, s.frames[f]), action.luck);
      hide Local;
    }
  }

  lemma LocalReads(s: State, fr: Frame, self: nat, child: Option<Outcome>, luck: Luck)
    ensures var next := Local(s, fr, self, child, luck).frame;
            next.pc.RbUpdate? ==>
              fr.pc.RbRead? && next.job == fr.job && fr.job.projectId in s.projects && next.pc.read == s.projects[fr.job.projectId]
  {
    hide Opening, Applying, Finishing, Restoring;
    if fr.pc.Rollback? || fr.pc.RbRead? || fr.pc.RbUpdate? || fr.pc.RbReload? || fr.pc.Await? {
      RestoringReads(s, fr, self, child, luck);
    } else {
      OthersDoNotUpdate(s, fr, luck);
    }
  }

  lemma OthersDoNotUpdate(s: State, fr: Frame, luck: Luck)
    requires !fr.pc.RbUpdate?
    ensures !Opening(s, fr, luck).frame.pc.RbUpdate? && !Applying(s, fr, luck).frame.pc.RbUpdate? && !Finishing(s, fr, luck).frame.pc.RbUpdate?
  {
    hide PinOf, TriggerOf, TrimSpace, ShouldPull, OwnsRow;
  }

  lemma RestoringReads(s: State, fr: Frame, self: nat, child: Option<Outcome>, luck: Luck)
    requires fr.pc.Rollback? || fr.pc.RbRead? || fr.pc.RbUpdate? || fr.pc.RbReload? || fr.pc.Await?
    ensures var next := Restoring(s, fr, self, child, luck).frame;
            next.pc.RbUpdate? ==>
              fr.pc.RbRead? && next.job == fr.job && fr.job.projectId in s.projects && next.pc.read == s.projects[fr.job.projectId]
  {
    hide TrimSpace;
  }

  /** At step k, the invocation read its project. */
  predicate ReadProject(start: State, actions: seq<Action>, f: nat, k: nat, projectId: string, read: ProjectRow) {
    && StepsAt(start, actions, f, k) && PcAt(start, actions, f, k).RbRead?
    && projectId in At(start, actions, k).projects && At(start, actions, k).projects[projectId] == read
  }

  lemma {:induction false} ReadWasMade(start: State, actions: seq<Action>, f: nat) returns (k: nat)
    requires Initial(start) && f < |Run(start, actions).frames| && Run(start, actions).frames[f].pc.RbUpdate?
    ensures var fr := Run(start, actions).frames[f]; ReadProject(start, actions, f, k, fr.job.projectId, fr.pc.read)
  {
    hide Step, Local;
    k := 0;
    if actions != [] {
      var front, last, n := actions[..|actions| - 1], actions[|actions| - 1], |actions| - 1;
      UpdateFollowsRead(Run(start, front), last, f);
      if Run(start, front).frames[f] == Run(start, actions).frames[f] {
        k := ReadWasMade(start, front, f);
        FrontSteps(start, actions, f, k);
        FrontAt(start, actions, k);
      } else {
        k := n;
        FrontAt(start, actions, n);
      }
    }
  }

  lemma StoredProjects(start: State, actions: seq<Action>, f: nat, u: nat)
    requires StoredPin(start, actions, f, u)
    ensures u < |actions| && f < |At(start, actions, u).frames| && At(start, actions, u).frames[f].pc.RbUpdate?
    ensures var s, fr := At(start, actions, u), At(start, actions, u).frames[f];
            At(start, actions, u + 1).projects == s.projects[fr.job.projectId := fr.pc.read.(imageRef := TrimSpace(fr.pin))]
  {
    hide Run, TrimSpace, Step;
    PrefixAt(start, actions, u + 1, u);
    RunStep(start, actions[..u + 1]);
    UpdateStores(At(start, actions, u), f, actions[u].luck);
  }

  lemma PrefixRead(start: State, actions: seq<Action>, n: nat, f: nat, k: nat, projectId: string, read: ProjectRow)
    requires n <= |actions| && ReadProject(start, actions[..n], f, k, projectId, read)
    ensures k < n && ReadProject(start, actions, f, k, projectId, read)
  {
    hide Run;
    PrefixAt(start, actions, n, k);
  }

  /** In every run, storing the pin leaves all projects as they are but the invocation's own, which
      becomes what it had read at step k with the pin for its image. */
  lemma PinReplacesImage(start: State, actions: seq<Action>, f: nat, u: nat) returns (k: nat)
    requires Initial(start) && StoredPin(start, actions, f, u)
    ensures k < u < |actions| && f < |At(start, actions, u).frames|
    ensures var fr := At(start, actions, u).frames[f];
            && StepsAt(start, actions, f, k) && PcAt(start, actions, f, k).RbRead?
            && fr.job.projectId in At(start, actions, k).projects
            && At(start, actions, u + 1).projects ==
               At(start, actions, u).projects[fr.job.projectId := At(start, actions, k).projects[fr.job.projectId].(imageRef := TrimSpace(fr.pin))]
  {
    StoredProjects(start, actions, f, u);
    hide Run, TrimSpace, StoredPin, Initial;
    k := ReadWasMade(start, actions[..u], f);
    var fr := At(start, actions, u).frames[f];
    PrefixRead(start, actions, u, f, k, fr.job.projectId, fr.pc.read);
  }

  lemma UpdateStores(s: State, f: nat, luck: Luck)
    requires f < |s.frames| && s.frames[f].pc.RbUpdate? && luck.ok
    ensures var fr := s.frames[f];
            Step(s, Advance(f, luck)).projects == s.projects[fr.job.projectId := fr.pc.read.(imageRef := TrimSpace(fr.pin))]
  {
    hide TrimSpace, Opening, Applying, Finishing;
  }
}
