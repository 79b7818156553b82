/** What the answers to an invocation's steps lead to: a failed step fails the deploy, nothing else does,
    and a failed health check rolls back where it can. Every statement holds of every interleaving. */
module DeploySteps {
  import opened Text
  import opened DeployHistory
  import opened DeployMachine
  import opened DeployRuns

  // ---- Which steps fail a deploy ----

  /** The answer fails the step, and for this cause. */
  predicate StepFails(fr: Frame, luck: Luck, cause: Cause) {
    && !luck.ok
    && match cause
       case PullError => fr.pc.Pull? && !HasPrefix(TrimSpace(fr.job.project.imageRef), "sha256:")
       case ContainerError => fr.pc.Create?
       case HealthError => fr.pc.Check? && fr.job.project.web && fr.job.project.healthCheck
       case RoutingError => fr.pc.Route?
       case DnsError => fr.pc.Dns?
  }

  function FailsWith(cause: Cause, text: string): Meeting {
    (s: State, fr: Frame, luck: Luck) => StepFails(fr, luck, cause) && luck.text == text
  }

  function FailedWith(cause: Cause, text: string): Frame -> bool {
    (fr: Frame) => fr.failed == Some(cause) && fr.error == text
  }

  predicate AnyFails(fr: Frame, luck: Luck) {
    exists cause :: StepFails(fr, luck, cause)
  }

  /** One step: it fails the deploy for its cause, or leaves what has failed as it is. */
  predicate FailsAs(fr: Frame, luck: Luck, next: Frame) {
    && (forall cause :: StepFails(fr, luck, cause) ==> Untroubled(fr) && next.failed == Some(cause) && next.error == luck.text)
    && (!AnyFails(fr, luck) ==> next.failed == fr.failed && next.error == fr.error)
  }

  lemma ApplyingFails(s: State, fr: Frame, luck: Luck)
    requires Untroubled(fr)
    ensures FailsAs(fr, luck, Applying(s, fr, luck).frame)
  {
    hide TrimSpace;
    assert StepFails(fr, luck, PullError) || StepFails(fr, luck, ContainerError) || StepFails(fr, luck, HealthError)
           || StepFails(fr, luck, RoutingError) || StepFails(fr, luck, DnsError) || !AnyFails(fr, luck);
  }

  lemma OpeningFails(s: State, fr: Frame, luck: Luck)
    requires fr.pc.Enter? || fr.pc.Start? || fr.pc.Choose? || fr.pc.Queue?
    ensures FailsAs(fr, luck, Opening(s, fr, luck).frame)
  {
    hide TrimSpace, PinOf, TriggerOf;
  }

  lemma FinishingFails(s: State, fr: Frame, luck: Luck)
    requires fr.pc.Fail? || fr.pc.FinishFailed? || fr.pc.FinishLive?
    ensures FailsAs(fr, luck, Finishing(s, fr, luck).frame)
  {
    hide TrimSpace, OwnsRow;
  }

  lemma RestoringFails(s: State, fr: Frame, self: nat, child: Option<Outcome>, luck: Luck)
    requires fr.pc.Rollback? || fr.pc.RbRead? || fr.pc.RbUpdate? || fr.pc.RbReload? || fr.pc.Await?
    ensures FailsAs(fr, luck, Restoring(s, fr, self, child, luck).frame)
  {
    hide TrimSpace;
  }

  lemma EffectFails(s: State, f: nat, luck: Luck)
    requires Inv(s) && f < |s.frames|
    ensures FailsAs(s.frames[f], luck, EffectOf(s, f, luck).frame)
  {
    hide Inv, Opening, Applying, Finishing, Restoring, OwnRow, Terminals, FailsAs;
    FrameFacts(s, f);
    var fr := s.frames[f];
    if fr.pc.Enter? || fr.pc.Start? || fr.pc.Choose? || fr.pc.Queue? {
      OpeningFails(s, fr, luck);
    } else if fr.pc.Fail? || fr.pc.FinishFailed? || fr.pc.FinishLive? {
      FinishingFails(s, fr, luck);
    } else if fr.pc.Rollback? || fr.pc.RbRead? || fr.pc.RbUpdate? || fr.pc.RbReload? || fr.pc.Await? {
      RestoringFails(s, fr, f, ChildOutcome(s, fr), luck);
    } else if fr.pc.Done? {
      DoneFails(s, f, luck);
    } else {
      ApplyingFails(s, fr, luck);
    }
  }

  lemma DoneFails(s: State, f: nat, luck: Luck)
    requires f < |s.frames| && s.frames[f].pc.Done?
    ensures FailsAs(s.frames[f], luck, EffectOf(s, f, luck).frame)
  {
    DoneStays(s, f, luck);
    hide EffectOf;
  }

  lemma FailureMarks(cause: Cause, text: string)
    ensures Marks(FailedWith(cause, text), FailsWith(cause, text))
  {
    hide Inv, EffectOf, StepFails;
    forall s: State, f: nat, luck: Luck | Inv(s) && f < |s.frames|
      ensures FailedWith(cause, text)(EffectOf(s, f, luck).frame)
              <==> FailedWith(cause, text)(s.frames[f]) || FailsWith(cause, text)(s, s.frames[f], luck)
    {
      EffectFails(s, f, luck);
    }
  }

  /** In every run, an invocation has failed for a cause and with a text exactly when one of its steps
      did. */
  lemma FailedIff(start: State, actions: seq<Action>, f: nat, cause: Cause, text: string)
    requires Initial(start) && f < |Run(start, actions).frames|
    ensures var fr := Run(start, actions).frames[f];
            fr.failed == Some(cause) && fr.error == text <==> Met(start, actions, f, FailsWith(cause, text))
  {
    hide Run, Met, Marks;
    FailureMarks(cause, text);
    MarkedIffMet(start, actions, f, FailedWith(cause, text), FailsWith(cause, text));
  }

  // ---- When a deploy is live, and when it returns nil ----

  /** The answer keeps the row from becoming live: settings, the new row, a step, or the last write. */
  predicate KeepsFromLive(s: State, fr: Frame, luck: Luck) {
    || (fr.pc.Enter? && fr.job.project.web && !fr.job.rootSet)
    || (fr.pc.Start? && !(luck.ok && luck.readOk))
    || AnyFails(fr, luck)
    || (fr.pc.FinishLive? && !luck.ok)
  }

  predicate EndsUnlive(fr: Frame) {
    fr.pc in [Done(Refused), Done(NotStarted), Done(LiveUnrecorded)]
  }

  predicate KeptFromLive(fr: Frame) {
    fr.failed.Some? || EndsUnlive(fr)
  }

  /** It keeps the invocation from returning nil: these, or the write that the store could not tell. */
  predicate KeepsFromNil(s: State, fr: Frame, luck: Luck) {
    KeepsFromLive(s, fr, luck) || LiveUntold(s, fr, luck)
  }

  predicate KeptFromNil(fr: Frame) {
    KeptFromLive(fr) || ErredLive(fr)
  }

  lemma OpeningEnds(s: State, fr: Frame, luck: Luck)
    requires fr.pc.Enter? || fr.pc.Start? || fr.pc.Choose? || fr.pc.Queue?
    ensures EndsUnlive(Opening(s, fr, luck).frame) <==>
              (fr.pc.Enter? && fr.job.project.web && !fr.job.rootSet) || (fr.pc.Start? && !(luck.ok && luck.readOk))
  {
    hide TrimSpace, PinOf, TriggerOf;
  }

  lemma ApplyingEnds(s: State, fr: Frame, luck: Luck)
    requires !fr.pc.Done?
    ensures !EndsUnlive(Applying(s, fr, luck).frame) || EndsUnlive(fr)
  {
    hide ShouldPull;
  }

  lemma FinishingEnds(s: State, fr: Frame, luck: Luck)
    requires (fr.pc.FinishLive? ==> OwnsRow(s.table, fr)) && !fr.pc.Done?
    ensures EndsUnlive(Finishing(s, fr, luck).frame) <==> fr.pc.FinishLive? && !luck.ok
  {
    hide OwnsRow;
  }

  lemma RestoringEnds(s: State, fr: Frame, self: nat, child: Option<Outcome>, luck: Luck)
    requires !fr.pc.Done?
    ensures !EndsUnlive(Restoring(s, fr, self, child, luck).frame)
  {
    hide TrimSpace;
  }

  lemma EffectEnds(s: State, f: nat, luck: Luck)
    requires Inv(s) && f < |s.frames|
    ensures KeptFromLive(EffectOf(s, f, luck).frame) <==> KeptFromLive(s.frames[f]) || KeepsFromLive(s, s.frames[f], luck)
  {
    hide Inv, Opening, Applying, Finishing, Restoring, OwnRow, Terminals, StepFails, AnyFails, EndsUnlive, OwnsRow;
    FrameFacts(s, f);
    EffectFails(s, f, luck);
    var fr := s.frames[f];
    FailsAnswer(fr, luck);
    if fr.pc.Done? {
      DoneStays(s, f, luck);
    } else {
      EndsAs(s, f, luck);
    }
  }

  lemma FailsAnswer(fr: Frame, luck: Luck)
    ensures AnyFails(fr, luck) ==> !luck.ok && (fr.pc.Pull? || fr.pc.Create? || fr.pc.Check? || fr.pc.Route? || fr.pc.Dns?)
    ensures AnyFails(fr, luck) <==> exists cause :: StepFails(fr, luck, cause)
  {
    hide TrimSpace;
  }

  lemma EndsAs(s: State, f: nat, luck: Luck)
    requires Inv(s) && f < |s.frames| && !s.frames[f].pc.Done?
    ensures var fr := s.frames[f];
            EndsUnlive(EffectOf(s, f, luck).frame) <==>
              || (fr.pc.Enter? && fr.job.project.web && !fr.job.rootSet)
              || (fr.pc.Start? && !(luck.ok && luck.readOk))
              || (fr.pc.FinishLive? && !luck.ok)
    ensures !EndsUnlive(s.frames[f])
  {
    var fr := s.frames[f];
    assert !EndsUnlive(fr);
    hide Inv, Opening, Applying, Finishing, Restoring, FrameOk, Terminals, EndsUnlive, OwnsRow;
    FrameFacts(s, f);
    RowsByNow(s.table, fr, Terminals(s.log, f));
    if fr.pc.Enter? || fr.pc.Start? || fr.pc.Choose? || fr.pc.Queue? {
      OpeningEnds(s, fr, luck);
    } else if fr.pc.Fail? || fr.pc.FinishFailed? || fr.pc.FinishLive? {
      FinishingEnds(s, fr, luck);
    } else if fr.pc.Rollback? || fr.pc.RbRead? || fr.pc.RbUpdate? || fr.pc.RbReload? || fr.pc.Await? {
      RestoringEnds(s, fr, f, ChildOutcome(s, fr), luck);
    } else {
      ApplyingEnds(s, fr, luck);
    }
  }

  lemma LiveMarks()
    ensures Marks(KeptFromLive, KeepsFromLive) && Marks(KeptFromNil, KeepsFromNil)
  {
    hide Inv, EffectOf, KeepsFromLive, LiveUntold, ErredLive;
    StoreMarks();
    forall s: State, f: nat, luck: Luck | Inv(s) && f < |s.frames|
      ensures KeptFromLive(EffectOf(s, f, luck).frame) <==> KeptFromLive(s.frames[f]) || KeepsFromLive(s, s.frames[f], luck)
      ensures ErredLive(EffectOf(s, f, luck).frame) <==> ErredLive(s.frames[f]) || LiveUntold(s, s.frames[f], luck)
    {
      EffectEnds(s, f, luck);
    }
  }

  lemma LiveByLabel(t: Table, fr: Frame, outcome: Outcome, terminals: seq<Stage>)
    requires OutcomeOk(t, fr, outcome, terminals) && fr.pc == Done(outcome)
    ensures OwnRow(t, fr, Live) <==> !KeptFromLive(fr)
    ensures ReturnsNil(outcome) <==> !KeptFromNil(fr)
    ensures OwnRow(t, fr, Failed) <==> fr.failed.Some? && !OwnRow(t, fr, Running)
  {
    hide TriggerOf, TrimSpace;
  }

  /** In every run, an invocation that has returned leaves its row live exactly when its settings were
      there, its row was created and read back, none of its steps failed, and the last write was made;
      and it returned nil exactly when also the store could tell. Its row says "failed" exactly when a
      step failed and the row did not stay running. */
  lemma LiveIff(start: State, actions: seq<Action>, f: nat)
    requires Initial(start)
    requires f < |Run(start, actions).frames| && Run(start, actions).frames[f].pc.Done?
    ensures var end := Run(start, actions);
            && (OwnRow(end.table, end.frames[f], Live) <==> !Met(start, actions, f, KeepsFromLive))
            && (ReturnsNil(end.frames[f].pc.outcome) <==> !Met(start, actions, f, KeepsFromNil))
            && (OwnRow(end.table, end.frames[f], Failed) <==> end.frames[f].failed.Some? && !Met(start, actions, f, LetsDown))
  {
    RunKeepsInv(start, actions);
    var end := Run(start, actions);
    hide Run, Met, OwnRow, Marks, Inv, Terminals, OutcomeOk, KeptFromLive, KeptFromNil;
    FrameFacts(end, f);
    LiveByLabel(end.table, end.frames[f], end.frames[f].pc.outcome, Terminals(end.log, f));
    LiveMarks();
    MarkedIffMet(start, actions, f, KeptFromLive, KeepsFromLive);
    MarkedIffMet(start, actions, f, KeptFromNil, KeepsFromNil);
    StaysRunningIff(start, actions, f);
  }

  // ---- Which steps a live deploy has behind it ----

  function PlaceOf(pc: Pc): nat {
    match pc
    case Enter => 0
    case Start => 1
    case Choose => 2
    case Queue => 3
    case Pull => 4
    case Create => 5
    case Check => 6
    case Route => 7
    case Dns => 8
    case Announce => 9
    case FinishLive => 10
    case _ => 0
  }

  function PlaceOfCause(cause: Cause): nat {
    match cause
    case PullError => 4
    case ContainerError => 5
    case HealthError => 6
    case RoutingError => 7
    case DnsError => 8
  }

  /** How far an invocation has got: to the step that failed, or to the one it stands at. */
  function Got(fr: Frame): nat {
    if fr.failed.Some? then PlaceOfCause(fr.failed.value)
    else if fr.pc.Done? then if fr.pc.outcome.Refused? || fr.pc.outcome.NotStarted? then 0 else 11
    else PlaceOf(fr.pc)
  }

  predicate Acts(step: Pc) {
    step in [Pull, Create, Check, Route, Dns]
  }

  /** The step did not fail; the first two are passed over where there is no Docker. */
  function Passes(step: Pc): Meeting {
    (s: State, fr: Frame, luck: Luck) =>
      (fr.pc == step && !AnyFails(fr, luck)) || (fr.pc.Queue? && !s.docker && (step.Pull? || step.Create?))
  }

  function Beyond(step: Pc): Frame -> bool {
    (fr: Frame) => Got(fr) > PlaceOf(step)
  }

  /** How one step may move an invocation on. */
  predicate MovesOn(s: State, fr: Frame, luck: Luck, next: Frame) {
    if AnyFails(fr, luck) then Got(next) == Got(fr)
    else if fr.pc.Enter? || fr.pc.Start? || fr.pc.Choose? then Got(next) <= 3
    else if fr.pc.Queue? then Got(next) == if s.docker then 4 else 6
    else if Acts(fr.pc) then Got(fr) == PlaceOf(fr.pc) && Got(next) == PlaceOf(fr.pc) + 1
    else if fr.pc.Announce? || fr.pc.FinishLive? then Got(fr) >= 9 && Got(next) >= 9
    else Got(next) == Got(fr)
  }

  lemma OpeningMoves(s: State, fr: Frame, luck: Luck)
    requires Untroubled(fr) && (fr.pc.Enter? || fr.pc.Start? || fr.pc.Choose? || fr.pc.Queue?)
    ensures MovesOn(s, fr, luck, Opening(s, fr, luck).frame)
  {
    hide TrimSpace, PinOf, TriggerOf;
  }

  lemma ApplyingMoves(s: State, fr: Frame, luck: Luck)
    requires Untroubled(fr) && (Acts(fr.pc) || fr.pc.Announce?)
    ensures MovesOn(s, fr, luck, Applying(s, fr, luck).frame)
  {
    ApplyingFails(s, fr, luck);
    hide TrimSpace, Untroubled;
    if !AnyFails(fr, luck) {
      assert !StepFails(fr, luck, PullError) && !StepFails(fr, luck, ContainerError) && !StepFails(fr, luck, HealthError)
             && !StepFails(fr, luck, RoutingError) && !StepFails(fr, luck, DnsError);
    }
  }

  lemma FinishingMoves(s: State, fr: Frame, luck: Luck)
    requires fr.pc.Fail? || fr.pc.FinishFailed? || fr.pc.FinishLive?
    requires if fr.pc.FinishLive? then Untroubled(fr) else fr.failed.Some?
    ensures MovesOn(s, fr, luck, Finishing(s, fr, luck).frame)
  {
    hide TrimSpace, OwnsRow;
  }

  lemma RestoringMoves(s: State, fr: Frame, self: nat, child: Option<Outcome>, luck: Luck)
    requires fr.pc.Rollback? || fr.pc.RbRead? || fr.pc.RbUpdate? || fr.pc.RbReload? || fr.pc.Await?
    requires fr.failed.Some?
    ensures MovesOn(s, fr, luck, Restoring(s, fr, self, child, luck).frame)
  {
    hide TrimSpace;
  }

  lemma EffectMoves(s: State, f: nat, luck: Luck)
    requires Inv(s) && f < |s.frames|
    ensures MovesOn(s, s.frames[f], luck, EffectOf(s, f, luck).frame)
  {
    hide Inv, Opening, Applying, Finishing, Restoring, OwnRow, Terminals, MovesOn;
    FrameFacts(s, f);
    var fr := s.frames[f];
    if fr.pc.Enter? || fr.pc.Start? || fr.pc.Choose? || fr.pc.Queue? {
      OpeningMoves(s, fr, luck);
    } else if fr.pc.Fail? || fr.pc.FinishFailed? || fr.pc.FinishLive? {
      FinishingMoves(s, fr, luck);
    } else if fr.pc.Rollback? || fr.pc.RbRead? || fr.pc.RbUpdate? || fr.pc.RbReload? || fr.pc.Await? {
      RestoringMoves(s, fr, f, ChildOutcome(s, fr), luck);
    } else if fr.pc.Done? {
      DoneMoves(s, f, luck);
    } else {
      ApplyingMoves(s, fr, luck);
    }
  }

  lemma DoneMoves(s: State, f: nat, luck: Luck)
    requires f < |s.frames| && s.frames[f].pc.Done?
    ensures MovesOn(s, s.frames[f], luck, EffectOf(s, f, luck).frame)
  {
    DoneStays(s, f, luck);
    hide EffectOf;
  }

  lemma StandsAt(s: State, f: nat)
    requires Inv(s) && f < |s.frames|
    ensures var fr := s.frames[f];
            fr.pc.Enter? || PlaceOf(fr.pc) > 0 ==> fr.failed.None? && Got(fr) == PlaceOf(fr.pc)
  {
    hide Inv, OwnRow, Terminals;
    FrameFacts(s, f);
  }

  lemma PassMarks(step: Pc)
    requires Acts(step)
    ensures Marks(Beyond(step), Passes(step))
  {
    hide Inv, EffectOf, AnyFails;
    forall s: State, f: nat, luck: Luck | Inv(s) && f < |s.frames|
      ensures Beyond(step)(EffectOf(s, f, luck).frame) <==> Beyond(step)(s.frames[f]) || Passes(step)(s, s.frames[f], luck)
    {
      EffectMoves(s, f, luck);
      StandsAt(s, f);
      FailsAnswer(s.frames[f], luck);
    }
  }

  lemma {:induction false} DockerStays(start: State, actions: seq<Action>)
    ensures Run(start, actions).docker == start.docker
  {
    hide EffectOf;
    if actions != [] {
      DockerStays(start, actions[..|actions| - 1]);
    }
  }

  lemma LiveMetAll(start: State, actions: seq<Action>, f: nat, step: Pc)
    requires Initial(start) && Acts(step)
    requires f < |Run(start, actions).frames| && Run(start, actions).frames[f].pc.Done?
    requires OwnRow(Run(start, actions).table, Run(start, actions).frames[f], Live)
    ensures Met(start, actions, f, Passes(step))
  {
    RunKeepsInv(start, actions);
    var end := Run(start, actions);
    hide Run, OwnRow, Marks, Met, Inv, Terminals, OutcomeOk, KeptFromLive, AnyFails, Beyond, Passes, Got;
    FrameFacts(end, f);
    LiveByLabel(end.table, end.frames[f], end.frames[f].pc.outcome, Terminals(end.log, f));
    LiveHasGot(end.frames[f]);
    AllBeyond(end.frames[f], step);
    PassMarks(step);
    MarkedIffMet(start, actions, f, Beyond(step), Passes(step));
  }

  /** In every run, an invocation whose row is live has passed the health check, the routing and the DNS
      update without a failure, and with Docker also the pull and the creation of the container. */
  lemma LiveHasPassed(start: State, actions: seq<Action>, f: nat, step: Pc) returns (k: nat)
    requires Initial(start) && Acts(step) && (start.docker || (step != Pull && step != Create))
    requires f < |Run(start, actions).frames| && Run(start, actions).frames[f].pc.Done?
    requires OwnRow(Run(start, actions).table, Run(start, actions).frames[f], Live)
    ensures StepsAt(start, actions, f, k) && At(start, actions, k).frames[f].pc == step
    ensures !AnyFails(At(start, actions, k).frames[f], actions[k].luck)
  {
    hide Run, OwnRow, AnyFails, Initial;
    LiveMetAll(start, actions, f, step);
    k :| MeetsAt(start, actions, f, k, Passes(step));
    DockerStays(start, actions[..k]);
  }

  lemma LiveHasGot(fr: Frame)
    requires fr.pc.Done? && !KeptFromLive(fr)
    ensures Got(fr) == 11
  {
  }

  lemma AllBeyond(fr: Frame, step: Pc)
    requires Acts(step) && Got(fr) == 11
    ensures Beyond(step)(fr)
  {
  }

  // ---- What the row of a deploy keeps of its steps ----

  function Creates(digest: string): Meeting {
    (s: State, fr: Frame, luck: Luck) => fr.pc.Create? && luck.ok && luck.text == digest
  }

  function HasDigest(digest: string): Frame -> bool {
    (fr: Frame) => fr.digest == digest
  }

  lemma EffectDigest(s: State, f: nat, luck: Luck)
    requires Inv(s) && f < |s.frames|
    ensures var fr := s.frames[f];
            EffectOf(s, f, luck).frame.digest == if fr.pc.Create? && luck.ok then luck.text else fr.digest
    ensures s.frames[f].pc.Create? ==> s.frames[f].digest == ""
  {
    hide PinOf, TriggerOf, TrimSpace, ShouldPull, Inv, OwnRow, Terminals, OwnsRow;
    FrameFacts(s, f);
  }

  lemma DigestMarks(digest: string)
    requires digest != ""
    ensures Marks(HasDigest(digest), Creates(digest))
  {
    hide Inv, EffectOf;
    forall s: State, f: nat, luck: Luck | Inv(s) && f < |s.frames|
      ensures HasDigest(digest)(EffectOf(s, f, luck).frame) <==> HasDigest(digest)(s.frames[f]) || Creates(digest)(s, s.frames[f], luck)
    {
      EffectDigest(s, f, luck);
    }
  }

  /** In every run, the row of an invocation that has returned names the image that its container was
      created from, and the text of the step that failed; and the project, image, trigger and actor that it
      was called with. */
  lemma RowTells(start: State, actions: seq<Action>, f: nat, digest: string, cause: Cause)
    requires Initial(start) && digest != ""
    requires f < |Run(start, actions).frames| && Run(start, actions).frames[f].pc.Done? && Run(start, actions).frames[f].record.Some?
    ensures var end := Run(start, actions);
            var fr := end.frames[f];
            && OwnsRow(end.table, fr)
            && var row := end.table.rows[fr.record.value];
               && row.projectId == fr.job.projectId && row.imageRef == fr.job.project.imageRef
               && row.trigger == (if Blank(fr.job.trigger) then "deploy" else TrimSpace(fr.job.trigger))
               && row.actor == TrimSpace(fr.job.actor)
               && (row.status != Running ==> (row.imageDigest == digest <==> Met(start, actions, f, Creates(digest))))
               && (row.status == Failed && fr.failed == Some(cause) ==> Met(start, actions, f, FailsWith(cause, row.error)))
               && (row.status == Live ==> row.error == "")
  {
    RunKeepsInv(start, actions);
    var end := Run(start, actions);
    var fr := end.frames[f];
    hide Run, Met, Marks, Inv, Terminals, FailsWith;
    FrameFacts(end, f);
    OwnsAnyRow(end.table, fr, Terminals(end.log, f));
    DigestMarks(digest);
    MarkedIffMet(start, actions, f, HasDigest(digest), Creates(digest));
    FailedIff(start, actions, f, cause, fr.error);
  }

  lemma OwnsAnyRow(t: Table, fr: Frame, terminals: seq<Stage>)
    requires FrameOk(t, fr, terminals) && fr.pc.Done? && fr.record.Some?
    ensures OwnRow(t, fr, Running) || (OwnRow(t, fr, Live) && fr.error == "") || OwnRow(t, fr, Failed)
  {
    hide OwnRow;
  }

  // ---- When a failed health check rolls back ----

  /** The failure of a health check was recorded, there is an image to return to, and rolling back is not
      disabled. */
  predicate StartsRollback(s: State, fr: Frame, luck: Luck) {
    fr.pc == FinishFailed(HealthError) && luck.ok && luck.readOk && fr.pin != "" && !fr.job.disableRollback
  }

  predicate InRollback(fr: Frame) {
    || fr.pc.Rollback? || fr.pc.RbRead? || fr.pc.RbUpdate? || fr.pc.RbReload? || fr.pc.Await?
    || (fr.pc.Done? && (fr.pc.outcome.RolledBack? || fr.pc.outcome.RollbackFailed?))
  }

  /** The project could not be read, stored or loaded again. */
  predicate GivesUp(s: State, fr: Frame, luck: Luck) {
    || (fr.pc.RbRead? && !(luck.ok && fr.job.projectId in s.projects))
    || (fr.pc.RbUpdate? && !luck.ok)
    || (fr.pc.RbReload? && !(luck.ok && fr.job.projectId in s.projects))
  }

  predicate GaveUp(fr: Frame) {
    fr.pc == Done(RollbackFailed(None))
  }

  lemma FinishingRollsBack(s: State, fr: Frame, luck: Luck)
    requires (fr.pc.FinishFailed? ==> OwnsRow(s.table, fr)) && !fr.pc.Done? && !InRollback(fr)
    ensures InRollback(Finishing(s, fr, luck).frame) <==> StartsRollback(s, fr, luck)
    ensures !GaveUp(Finishing(s, fr, luck).frame)
  {
    hide OwnsRow;
  }

  lemma RestoringGivesUp(s: State, fr: Frame, self: nat, child: Option<Outcome>, luck: Luck)
    requires fr.pc.Rollback? || fr.pc.RbRead? || fr.pc.RbUpdate? || fr.pc.RbReload? || fr.pc.Await?
    ensures InRollback(Restoring(s, fr, self, child, luck).frame)
    ensures GaveUp(Restoring(s, fr, self, child, luck).frame) <==> GivesUp(s, fr, luck)
  {
    hide TrimSpace;
  }

  lemma OthersStayOut(s: State, fr: Frame, luck: Luck)
    requires !fr.pc.Done? && !InRollback(fr)
    ensures !InRollback(Opening(s, fr, luck).frame) && !InRollback(Applying(s, fr, luck).frame)
  {
    hide PinOf, TriggerOf, TrimSpace, ShouldPull;
  }

  lemma EffectRollsBack(s: State, f: nat, luck: Luck)
    requires Inv(s) && f < |s.frames|
    ensures InRollback(EffectOf(s, f, luck).frame) <==> InRollback(s.frames[f]) || StartsRollback(s, s.frames[f], luck)
    ensures GaveUp(EffectOf(s, f, luck).frame) <==> GaveUp(s.frames[f]) || GivesUp(s, s.frames[f], luck)
  {
    hide Inv, Opening, Applying, Finishing, Restoring, FrameOk, Terminals, OwnsRow;
    FrameFacts(s, f);
    var fr := s.frames[f];
    RowsByNow(s.table, fr, Terminals(s.log, f));
    if fr.pc.Done? {
      DoneStays(s, f, luck);
    } else if InRollback(fr) {
      RestoringGivesUp(s, fr, f, ChildOutcome(s, fr), luck);
    } else {
      FinishingRollsBack(s, fr, luck);
      OthersStayOut(s, fr, luck);
    }
  }

  lemma RollbackMarks()
    ensures Marks(InRollback, StartsRollback) && Marks(GaveUp, GivesUp)
  {
    hide Inv, EffectOf, StartsRollback, GivesUp;
    forall s: State, f: nat, luck: Luck | Inv(s) && f < |s.frames|
      ensures InRollback(EffectOf(s, f, luck).frame) <==> InRollback(s.frames[f]) || StartsRollback(s, s.frames[f], luck)
      ensures GaveUp(EffectOf(s, f, luck).frame) <==> GaveUp(s.frames[f]) || GivesUp(s, s.frames[f], luck)
    {
      EffectRollsBack(s, f, luck);
    }
  }

  /** Invocation c is the finished rollback of invocation f. */
  predicate FinishedRollback(end: State, f: nat, c: nat) {
    c < |end.frames| && end.frames[c].job.parent == Some(f) && end.frames[c].pc.Done?
  }

  /** In every run, an invocation rolls back exactly when the failure of its health check was recorded, it
      had a pin, and rolling back was not disabled. When it has returned, it gave up exactly when the
      project could not be read, stored or loaded again; otherwise there is a finished rollback, and it
      ends as that one did. */
  lemma RollsBackIff(start: State, actions: seq<Action>, f: nat)
    requires Initial(start) && f < |Run(start, actions).frames|
    ensures var end := Run(start, actions);
            && (InRollback(end.frames[f]) <==> Met(start, actions, f, StartsRollback))
            && (GaveUp(end.frames[f]) <==> Met(start, actions, f, GivesUp))
            && (InRollback(end.frames[f]) && end.frames[f].pc.Done? && !GaveUp(end.frames[f]) ==>
                  exists c: nat :: FinishedRollback(end, f, c)
                              && end.frames[f].pc.outcome == if end.frames[c].pc == Done(Succeeded) then RolledBack(c) else RollbackFailed(Some(c)))
  {
    RunKeepsInv(start, actions);
    var end := Run(start, actions);
    hide Run, Met, Marks, Inv, Terminals, FrameOk, PinOk;
    FrameFacts(end, f);
    RollbackMarks();
    MarkedIffMet(start, actions, f, InRollback, StartsRollback);
    MarkedIffMet(start, actions, f, GaveUp, GivesUp);
    if InRollback(end.frames[f]) && end.frames[f].pc.Done? && !GaveUp(end.frames[f]) {
      var outcome := end.frames[f].pc.outcome;
      var c := if outcome.RolledBack? then outcome.child else outcome.attempt.value;
      assert FinishedRollback(end, f, c);
    }
  }

  /** In every run, the pin of an invocation is what it found when it chose: nothing if rolling back is
      disabled or the deploys could not be listed, and else the digest of the fallback of that moment. */
  lemma PinIsFound(start: State, actions: seq<Action>, f: nat, k: nat)
    requires Initial(start) && StepsAt(start, actions, f, k) && PcAt(start, actions, f, k).Choose?
    ensures f < |Run(start, actions).frames|
    ensures var s := At(start, actions, k);
            s.frames[f].record.Some?
            && Run(start, actions).frames[f].pin ==
               if s.frames[f].job.disableRollback || !actions[k].luck.ok then ""
               else PinOf(s.table, s.frames[f].job.projectId, s.frames[f].record.value)
  {
    RunKeepsInv(start, actions[..k]);
    var s, now := At(start, actions, k), At(start, actions, k + 1);
    PrefixAt(start, actions, k + 1, k);
    RunStep(start, actions[..k + 1]);
    hide Run, Inv, PinOf, Terminals, OwnRow;
    FrameFacts(s, f);
    ChosenNow(s, f, actions[k].luck);
    StepKeepsFrames(s, actions[k]);
    ChoiceStays(start, actions, f, k + 1);
  }

  lemma ChosenNow(s: State, f: nat, luck: Luck)
    requires f < |s.frames| && s.frames[f].pc.Choose? && s.frames[f].record.Some?
    ensures var fr, next := s.frames[f], Step(s, Advance(f, luck)).frames[f];
            && HasChosen(next.pc)
            && next.pin == if fr.job.disableRollback || !luck.ok then "" else PinOf(s.table, fr.job.projectId, fr.record.value)
  {
    hide PinOf, Applying, Finishing, Restoring;
  }

  // ---- What an invocation announces ----

  /** All stages that an invocation has announced. */
  function Announced(log: seq<Event>, f: nat): seq<Stage> {
    if log == [] then []
    else
      var front, last := Announced(log[..|log| - 1], f), log[|log| - 1];
      if last.frame == f then front + [last.stage] else front
  }

  /** What passing one step announces. */
  function StagesAt(docker: bool, checked: bool, place: nat): seq<Stage> {
    match place
    case 3 => [Queued]
    case 4 => if docker then [Pulling] else []
    case 5 => if docker then [Creating] else []
    case 6 => if checked then [Checking, CheckPassed] else []
    case 7 => [Routing]
    case 8 => [Resolving]
    case 9 => [LiveStage]
    case _ => []
  }

  /** What passing all steps before a place announces. */
  function Through(docker: bool, checked: bool, place: nat): seq<Stage> {
    if place == 0 then [] else Through(docker, checked, place - 1) + StagesAt(docker, checked, place - 1)
  }

  /** What failing at a place announces: the step, unless that is the health check without its success;
      the failure; and the rollback. */
  function FailureStory(docker: bool, checked: bool, place: nat, announced: bool, rolling: bool): seq<Stage> {
    (if place == 6 then [Checking] else StagesAt(docker, checked, place))
    + (if announced then [FailedStage] else []) + (if rolling then [RollingBack] else [])
  }

  predicate Checked(job: Job) {
    job.project.web && job.project.healthCheck
  }

  /** What an invocation has announced when it has got so far. */
  function Story(docker: bool, fr: Frame): seq<Stage> {
    Through(docker, Checked(fr.job), Got(fr))
    + if fr.failed.Some? then FailureStory(docker, Checked(fr.job), Got(fr), !fr.pc.Fail?, InRollback(fr) && !fr.pc.Rollback?) else []
  }

  lemma {:induction false} AnnouncedAppend(log: seq<Event>, more: seq<Event>, f: nat)
    ensures Announced(log + more, f) == Announced(log, f) + Announced(more, f)
  {
    if more == [] {
      assert log + more == log;
    } else {
      assert (log + more)[..|log + more| - 1] == log + more[..|more| - 1];
      AnnouncedAppend(log, more[..|more| - 1], f);
    }
  }

  lemma {:induction false} AnnouncedTagged(g: nat, stages: seq<Stage>, f: nat)
    ensures Announced(Tagged(g, stages), f) == if g == f then stages else []
  {
    if stages != [] {
      assert Tagged(g, stages)[..|stages| - 1] == Tagged(g, stages[..|stages| - 1]);
      AnnouncedTagged(g, stages[..|stages| - 1], f);
      assert stages == stages[..|stages| - 1] + [stages[|stages| - 1]];
    }
  }

  lemma {:induction false} NothingAnnounced(log: seq<Event>, f: nat)
    requires forall e :: e in log ==> e.frame < f
    ensures Announced(log, f) == []
  {
    if log != [] {
      NothingAnnounced(log[..|log| - 1], f);
    }
  }

  lemma ThroughQueue(checked: bool)
    ensures Through(false, checked, 6) == Through(false, checked, 3) + [Queued]
    ensures forall place: nat :: place <= 3 ==> Through(false, checked, place) == [] == Through(true, checked, place)
    ensures forall docker :: Through(docker, checked, 11) == Through(docker, checked, 10)
  {
    forall place: nat | place <= 3 ensures Through(false, checked, place) == [] == Through(true, checked, place) {
      assert place == 0 || place == 1 || place == 2 || place == 3;
    }
    assert Through(false, checked, 4) == Through(false, checked, 3) + [Queued];
    assert Through(false, checked, 5) == Through(false, checked, 4) + [];
    assert Through(false, checked, 6) == Through(false, checked, 5) + [];
  }

  lemma EarlyStory(docker: bool, fr: Frame)
    requires fr.failed.None?
    ensures Got(fr) <= 3 ==> Story(docker, fr) == []
    ensures Got(fr) == 4 && docker ==> Story(docker, fr) == [Queued]
    ensures Got(fr) == 6 && !docker ==> Story(docker, fr) == [Queued]
  {
    ThroughQueue(Checked(fr.job));
    OneStepThrough(true, Checked(fr.job), 3);
    hide Through, Got;
  }

  lemma OpeningGets(s: State, fr: Frame, luck: Luck)
    requires Untroubled(fr) && (fr.pc.Enter? || fr.pc.Start? || fr.pc.Choose? || fr.pc.Queue?)
    ensures var e := Opening(s, fr, luck);
            && e.frame.failed.None? && e.frame.job == fr.job && Got(fr) <= 3
            && (if fr.pc.Queue? then Got(e.frame) == (if s.docker then 4 else 6) && e.stages == [Queued]
                else Got(e.frame) <= 3 && e.stages == [])
  {
    hide TrimSpace, PinOf, TriggerOf;
  }

  lemma OpeningStory(s: State, fr: Frame, luck: Luck)
    requires Untroubled(fr) && (fr.pc.Enter? || fr.pc.Start? || fr.pc.Choose? || fr.pc.Queue?)
    ensures var e := Opening(s, fr, luck); Story(s.docker, e.frame) == Story(s.docker, fr) + e.stages
  {
    hide Opening, Story, Got;
    OpeningGets(s, fr, luck);
    EarlyStory(s.docker, fr);
    EarlyStory(s.docker, Opening(s, fr, luck).frame);
  }

  lemma OneStepThrough(docker: bool, checked: bool, place: nat)
    ensures Through(docker, checked, place + 1) == Through(docker, checked, place) + StagesAt(docker, checked, place)
  {
  }

  lemma ApplyingGets(s: State, fr: Frame, luck: Luck)
    requires Untroubled(fr) && (Acts(fr.pc) || fr.pc.Announce?)
    ensures var next := Applying(s, fr, luck).frame;
            && next.job == fr.job
            && (if next.failed.Some? then next.pc.Fail? && Got(next) == PlaceOf(fr.pc) else Got(next) == PlaceOf(fr.pc) + 1)
            && (next.failed == Some(HealthError) <==> next.failed.Some? && PlaceOf(fr.pc) == 6)
  {
    hide ShouldPull, PlaceOf, PlaceOfCause;
    PlacesInOrder();
  }

  lemma PlacesInOrder()
    ensures PlaceOf(Pull) == 4 == PlaceOfCause(PullError) && PlaceOf(Create) == 5 == PlaceOfCause(ContainerError)
    ensures PlaceOf(Check) == 6 == PlaceOfCause(HealthError) && PlaceOf(Route) == 7 == PlaceOfCause(RoutingError)
    ensures PlaceOf(Dns) == 8 == PlaceOfCause(DnsError) && PlaceOf(Announce) == 9 && PlaceOf(FinishLive) == 10
  {
  }

  lemma ApplyingStages(s: State, fr: Frame, luck: Luck)
    requires Untroubled(fr) && (Acts(fr.pc) || fr.pc.Announce?) && ((fr.pc.Pull? || fr.pc.Create?) ==> s.docker)
    ensures var e := Applying(s, fr, luck);
            e.stages == if e.frame.failed == Some(HealthError) then [Checking] else StagesAt(s.docker, Checked(fr.job), PlaceOf(fr.pc))
  {
    hide ShouldPull;
  }

  lemma StoryMoves(docker: bool, fr: Frame, next: Frame, stages: seq<Stage>)
    requires Untroubled(fr) && next.job == fr.job && Got(fr) == PlaceOf(fr.pc)
    requires if next.failed.Some? then next.pc.Fail? && Got(next) == Got(fr) else Got(next) == Got(fr) + 1
    requires stages == if next.failed.Some? && Got(fr) == 6 then [Checking] else StagesAt(docker, Checked(fr.job), Got(fr))
    ensures Story(docker, next) == Story(docker, fr) + stages
  {
    hide Through, Got, StagesAt;
    OneStepThrough(docker, Checked(fr.job), Got(fr));
  }

  lemma ApplyingStory(s: State, fr: Frame, luck: Luck)
    requires Untroubled(fr) && (Acts(fr.pc) || fr.pc.Announce?) && ((fr.pc.Pull? || fr.pc.Create?) ==> s.docker)
    ensures var e := Applying(s, fr, luck); Story(s.docker, e.frame) == Story(s.docker, fr) + e.stages
  {
    assert Got(fr) == PlaceOf(fr.pc);
    hide Story, Applying, Got, PlaceOf, StagesAt;
    ApplyingGets(s, fr, luck);
    ApplyingStages(s, fr, luck);
    StoryMoves(s.docker, fr, Applying(s, fr, luck).frame, Applying(s, fr, luck).stages);
  }

  /** After a failure, what is announced is the failure, and then the rollback. */
  lemma FailureMoves(docker: bool, fr: Frame, next: Frame, stages: seq<Stage>)
    requires fr.failed.Some? && next.failed == fr.failed && next.job == fr.job
    requires
      var announced, rolling := !fr.pc.Fail?, InRollback(fr) && !fr.pc.Rollback?;
      var announces, rolls := !next.pc.Fail?, InRollback(next) && !next.pc.Rollback?;
      if announced then announces && (if rolling then rolls && stages == [] else stages == if rolls then [RollingBack] else [])
      else !rolling && !rolls && announces && stages == [FailedStage]
    ensures Story(docker, next) == Story(docker, fr) + stages
  {
    hide Through, StagesAt, InRollback;
    assert Got(next) == Got(fr);
  }

  lemma FinishingStory(s: State, fr: Frame, luck: Luck)
    requires fr.pc.Fail? || fr.pc.FinishFailed? || fr.pc.FinishLive?
    requires if fr.pc.FinishLive? then Untroubled(fr) else fr.failed.Some?
    ensures var e := Finishing(s, fr, luck); Story(s.docker, e.frame) == Story(s.docker, fr) + e.stages
  {
    hide OwnsRow, Story;
    var e := Finishing(s, fr, luck);
    if fr.pc.FinishLive? {
      LastStory(s.docker, fr, e.frame);
    } else {
      FailureMoves(s.docker, fr, e.frame, e.stages);
    }
  }

  lemma LastStory(docker: bool, fr: Frame, next: Frame)
    requires fr.failed.None? && next.failed.None? && next.job == fr.job && Got(fr) == 10 && Got(next) == 11
    ensures Story(docker, next) == Story(docker, fr) + []
  {
    ThroughQueue(Checked(fr.job));
    hide Through, Got;
  }

  lemma RestoringStory(s: State, fr: Frame, self: nat, child: Option<Outcome>, luck: Luck)
    requires fr.pc.Rollback? || fr.pc.RbRead? || fr.pc.RbUpdate? || fr.pc.RbReload? || fr.pc.Await?
    requires fr.failed.Some?
    ensures var e := Restoring(s, fr, self, child, luck); Story(s.docker, e.frame) == Story(s.docker, fr) + e.stages
  {
    hide TrimSpace, Story;
    var e := Restoring(s, fr, self, child, luck);
    FailureMoves(s.docker, fr, e.frame, e.stages);
  }

  lemma DockerAtPull(s: State, fr: Frame, luck: Luck)
    ensures var e := Opening(s, fr, luck); (e.frame.pc.Pull? || e.frame.pc.Create?) ==> s.docker || fr.pc.Pull? || fr.pc.Create?
  {
    hide TrimSpace, PinOf, TriggerOf;
  }

  /** Invocations pull and create only where there is Docker, and each has announced its story. */
  ghost predicate StoriesTold(s: State) {
    forall f :: 0 <= f < |s.frames| ==>
      && ((s.frames[f].pc.Pull? || s.frames[f].pc.Create?) ==> s.docker)
      && Announced(s.log, f) == Story(s.docker, s.frames[f])
  }

  lemma EffectStory(s: State, f: nat, luck: Luck)
    requires Inv(s) && StoriesTold(s) && f < |s.frames|
    ensures var fr, e := s.frames[f], EffectOf(s, f, luck);
            && Story(s.docker, e.frame) == Story(s.docker, fr) + e.stages
            && ((e.frame.pc.Pull? || e.frame.pc.Create?) ==> s.docker)
  {
    hide Opening, Applying, Finishing, Restoring, OwnRow, Terminals, Story, Announced, Inv;
    FrameFacts(s, f);
    var fr := s.frames[f];
    if fr.pc.Enter? || fr.pc.Start? || fr.pc.Choose? || fr.pc.Queue? {
      OpeningStory(s, fr, luck);
      DockerAtPull(s, fr, luck);
    } else if fr.pc.Fail? || fr.pc.FinishFailed? || fr.pc.FinishLive? {
      FinishingStory(s, fr, luck);
      PullsOnlyByOpening(s, fr, f, ChildOutcome(s, fr), luck);
    } else if fr.pc.Rollback? || fr.pc.RbRead? || fr.pc.RbUpdate? || fr.pc.RbReload? || fr.pc.Await? {
      RestoringStory(s, fr, f, ChildOutcome(s, fr), luck);
      PullsOnlyByOpening(s, fr, f, ChildOutcome(s, fr), luck);
    } else if fr.pc.Done? {
      DoneSilent(s, f, luck);
    } else {
      ApplyingStory(s, fr, luck);
      PullsOnlyByOpening(s, fr, f, ChildOutcome(s, fr), luck);
    }
  }

  lemma PullsOnlyByOpening(s: State, fr: Frame, self: nat, child: Option<Outcome>, luck: Luck)
    requires !fr.pc.Done?
    ensures fr.pc.Fail? || fr.pc.FinishFailed? || fr.pc.FinishLive? ==>
              var pc := Finishing(s, fr, luck).frame.pc; !pc.Pull? && !pc.Create?
    ensures fr.pc.Rollback? || fr.pc.RbRead? || fr.pc.RbUpdate? || fr.pc.RbReload? || fr.pc.Await? ==>
              var pc := Restoring(s, fr, self, child, luck).frame.pc; !pc.Pull? && !pc.Create?
    ensures Acts(fr.pc) || fr.pc.Announce? ==>
              var pc := Applying(s, fr, luck).frame.pc; pc.Pull? || pc.Create? ==> fr.pc.Pull? || fr.pc.Create?
  {
    hide TrimSpace, ShouldPull, OwnsRow;
  }

  lemma DoneSilent(s: State, f: nat, luck: Luck)
    requires f < |s.frames| && s.frames[f].pc.Done?
    ensures EffectOf(s, f, luck).stages == [] && EffectOf(s, f, luck).frame == s.frames[f]
    ensures Story(s.docker, s.frames[f]) + [] == Story(s.docker, s.frames[f])
  {
    DoneStays(s, f, luck);
  }

  lemma NewStory(docker: bool, fr: Frame)
    requires IsNew(fr)
    ensures Story(docker, fr) == []
  {
  }

  lemma StepStory(s: State, action: Action, g: nat)
    requires Inv(s) && StoriesTold(s) && g < |Step(s, action).frames|
    ensures var n := Step(s, action);
            && ((n.frames[g].pc.Pull? || n.frames[g].pc.Create?) ==> n.docker)
            && Announced(n.log, g) == Story(n.docker, n.frames[g])
  {
    hide Inv, EffectOf, Story, Announced, Tagged;
    StepKeepsFrames(s, action);
    if action.Advance? && action.frame < |s.frames| {
      var stages := EffectOf(s, action.frame, action.luck).stages;
      AnnouncedAppend(s.log, Tagged(action.frame, stages), g);
      AnnouncedTagged(action.frame, stages, g);
      EffectStory(s, action.frame, action.luck);
    }
    if g >= |s.frames| {
      NewFrameIsNew(s, action, g);
      NewStory(s.docker, Step(s, action).frames[g]);
      LogFacts(s);
      NothingAnnounced(s.log, g);
    } else {
      assert Announced(s.log, g) + [] == Announced(s.log, g);
    }
  }

  /** In every run, what an invocation has announced is its story: which stages, how often, and in which
      order. */
  lemma {:induction false} StoryIsTold(start: State, actions: seq<Action>)
    requires Initial(start)
    ensures StoriesTold(Run(start, actions))
  {
    hide Inv, Step, Story, Announced;
    if actions != [] {
      var front := actions[..|actions| - 1];
      StoryIsTold(start, front);
      RunKeepsInv(start, front);
      forall g | 0 <= g < |Run(start, actions).frames|
        ensures var n := Run(start, actions);
                && ((n.frames[g].pc.Pull? || n.frames[g].pc.Create?) ==> n.docker)
                && Announced(n.log, g) == Story(n.docker, n.frames[g])
      {
        StepStory(Run(start, front), actions[|actions| - 1], g);
      }
    }
  }

  /** So a returned nil was announced like this. */
  lemma NilIsAnnounced(start: State, actions: seq<Action>, f: nat)
    requires Initial(start) && f < |Run(start, actions).frames| && Run(start, actions).frames[f].pc == Done(Succeeded)
    ensures var end := Run(start, actions);
            Announced(end.log, f) ==
            [Queued] + (if start.docker then [Pulling, Creating] else [])
            + (if Checked(end.frames[f].job) then [Checking, CheckPassed] else []) + [Routing, Resolving, LiveStage]
  {
    RunKeepsInv(start, actions);
    StoryIsTold(start, actions);
    DockerStays(start, actions);
    var end := Run(start, actions);
    hide Run, Inv, Terminals, Announced, OwnRow;
    FrameFacts(end, f);
    AllThrough(start.docker, Checked(end.frames[f].job));
    assert Got(end.frames[f]) == 11;
  }

  lemma AllThrough(docker: bool, checked: bool)
    ensures Through(docker, checked, 11) ==
            [Queued] + (if docker then [Pulling, Creating] else []) + (if checked then [Checking, CheckPassed] else []) + [Routing, Resolving, LiveStage]
  {
    ThroughQueue(checked);
    hide Through;
    OneStepThrough(docker, checked, 3);
    OneStepThrough(docker, checked, 4);
    OneStepThrough(docker, checked, 5);
    OneStepThrough(docker, checked, 6);
    OneStepThrough(docker, checked, 7);
    OneStepThrough(docker, checked, 8);
    OneStepThrough(docker, checked, 9);
    assert Through(docker, checked, 3) == [];
  }
}
