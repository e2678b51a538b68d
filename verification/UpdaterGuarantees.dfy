/** Further guarantees of the updater: refusals are permanent over every run, a rollback refuses only what it leaves
    and keeps the outcome it interrupts, and an update is recorded as one but for a single case. */
module UpdaterGuarantees {
  import opened Text
  import opened Versions
  import opened Journals
  import opened Updater
  import opened UpdaterPasses
  import opened UpdaterRuns
  import Gate

  // ---- poison is permanent ----

  /** Refusal respects version equivalence: every name of a refused release is refused. */
  lemma PoisonFollowsRelease(r: Record, u: string, v: string)
    requires IsPoisoned(r, u) && SameVersion(u, v)
    ensures IsPoisoned(r, v)
  {
    if TrimSpace(u) in r.poisoned {
      TrimIdempotent(u);
      SameVersionReflexive(u);
      assert SameVersion(TrimSpace(u), u);
      SameVersionTransitive(TrimSpace(u), u, v);
    } else {
      var k :| k in r.poisoned && SameVersion(k, u);
      SameVersionTransitive(k, u, v);
    }
  }

  lemma PoisonInherited(r: Record, s: Record, v: string)
    requires IsPoisoned(r, v) && r.poisoned.Keys <= s.poisoned.Keys
    ensures IsPoisoned(s, v)
  {
    if TrimSpace(v) !in r.poisoned {
      var k :| k in r.poisoned && SameVersion(k, v);
      assert k in s.poisoned;
    }
  }

  lemma LateEffectsLaunchNothing(disk: Record, step: Step, i: nat)
    requires i < |Happened(disk, step)| && Happened(disk, step)[i].Launch?
    ensures i < |ActEnd(disk, step.act, step.now).trace|
    ensures Happened(disk, step)[i] == ActEnd(disk, step.act, step.now).trace[i]
  {
  }

  /** A launch one step performs as an update names the manifest's version, which is not refused on the disk. */
  lemma UpdateLaunchIsAllowed(disk: Record, step: Step, e: Event)
    requires WellFormed(disk) && e in LaunchEvents(Happened(disk, step), step.now) && e.Launched? && e.kind == Update
    ensures step.act.DoRun? && e.version == step.act.manifest.version && !IsPoisoned(disk, e.version)
  {
    var trace, end := Happened(disk, step), ActEnd(disk, step.act, step.now);
    EventsComeFromLaunches(trace, step.now, e);
    var i :| 0 <= i < |trace| && trace[i].Launch? && trace[i].ok && e == Launched(step.now, trace[i].kind, trace[i].version);
    LateEffectsLaunchNothing(disk, step, i);
    match step.act
    case DoRun(m, cfg, a) => RunSound(disk, m, cfg, a, step.now);
    case DoRollback(req, cfg, a) => RollbackSound(disk, req, cfg, a, step.now);
    case _ =>
  }

  /** No update to the release was launched in these events. */
  ghost predicate Spared(events: seq<Event>, v: string) {
    forall e :: e in events && e.Launched? && e.kind == Update ==> !SameVersion(e.version, v)
  }

  lemma SparedOnward(past: seq<Event>, before: seq<Event>, added: seq<Event>, v: string)
    requires past <= before && Spared(before[|past|..], v) && Spared(added, v)
    ensures past <= before + added && Spared((before + added)[|past|..], v)
  {
    assert (before + added)[|past|..] == before[|past|..] + added;
  }

  lemma AddedSpared(disk: Record, step: Step, v: string)
    requires WellFormed(disk) && IsPoisoned(disk, v)
    ensures Spared(Added(disk, step), v)
  {
    forall e | e in Added(disk, step) && e.Launched? && e.kind == Update ensures !SameVersion(e.version, v) {
      UpdateLaunchIsAllowed(disk, step, e);
      if SameVersion(e.version, v) {
        SameVersionSymmetric(e.version, v);
        PoisonFollowsRelease(disk, v, e.version);
      }
    }
  }

  lemma StepRespectsPoison(w: World, step: Step, v: string)
    requires Safe(w) && Admissible(w, step) && IsPoisoned(w.disk, v)
    ensures IsPoisoned(Advance(w, step).disk, v)
    ensures Advance(w, step).history == w.history + Added(w.disk, step)
    ensures Spared(Added(w.disk, step), v)
  {
    AddedSpared(w.disk, step, v);
    HappenedSound(w.disk, step);
    Replay(w.disk, step.now, Happened(w.disk, step));
    PoisonInherited(w.disk, DiskAfter(w.disk, Happened(w.disk, step)), v);
  }

  /** Once a release is refused on this device, no run of any length ever hands it to the installer as an update
      again, under any build metadata, and it stays refused. */
  lemma {:induction false} PoisonIsPermanent(w: World, steps: seq<Step>, v: string)
    requires Safe(w) && AllAdmissible(w, steps) && IsPoisoned(w.disk, v)
    ensures IsPoisoned(Play(w, steps).disk, v)
    ensures w.history <= Play(w, steps).history
    ensures Spared(Play(w, steps).history[|w.history|..], v)
  {
    if steps != [] {
      var front, last := steps[..|steps| - 1], steps[|steps| - 1];
      FrontAdmissible(w, steps);
      PoisonIsPermanent(w, front, v);
      PlaySafe(w, front);
      StepRespectsPoison(Play(w, front), last, v);
      SparedOnward(w.history, Play(w, front).history, Added(Play(w, front).disk, last), v);
    }
  }

  // ---- how a release comes to be refused ----

  /** The failure that reaches the ceiling refuses the target, and no earlier one does. */
  lemma CeilingPoisons(r: Record, note: FailureNote, maxAttempts: int, now: int)
    requires !Blank(r.attempt.target)
    ensures FailureCount(r, TrimSpace(r.attempt.target)) + 1 >= Ceiling(maxAttempts) ==>
            IsPoisoned(RecordFailure(r, note, maxAttempts, now), r.attempt.target)
    ensures FailureCount(r, TrimSpace(r.attempt.target)) + 1 < Ceiling(maxAttempts) ==>
            RecordFailure(r, note, maxAttempts, now).poisoned == r.poisoned
  {
  }

  /** Refusing one more version refuses its release and nothing else. */
  lemma OneMoreRefused(r: Record, after: Record, x: string, why: Poison, v: string)
    requires !Blank(x) && after.poisoned == r.poisoned[TrimSpace(x) := why]
    ensures IsPoisoned(after, v) <==> IsPoisoned(r, v) || SameVersion(x, v)
  {
    var left := TrimSpace(x);
    TrimIdempotent(x);
    SameVersionReflexive(x);
    assert SameVersion(left, v) <==> SameVersion(x, v);
    if SameVersion(x, v) {
      assert left in after.poisoned;
    }
    if IsPoisoned(r, v) {
      PoisonInherited(r, after, v);
    } else if IsPoisoned(after, v) {
      if TrimSpace(v) in after.poisoned {
        assert TrimSpace(v) == left;
        SameVersionReflexive(v);
      } else {
        var k :| k in after.poisoned && SameVersion(k, v);
        assert k == left;
      }
    }
  }

  /** Recording a rollback refuses the release being left and nothing else, so never the one being restored. */
  lemma RollbackRefusesOnlyTheLeft(r: Record, target: string, leaving: string, now: int, v: string)
    requires !Blank(leaving)
    ensures IsPoisoned(RecordRollback(r, target, leaving, now), v) <==>
            IsPoisoned(r, v) || (!SameVersion(leaving, target) && SameVersion(leaving, v))
  {
    if !SameVersion(leaving, target) {
      OneMoreRefused(r, RecordRollback(r, target, leaving, now), leaving, LeftBehind(target), v);
    }
  }

  /** Recording a rollback leaves the release being restored as refused, or not, as it was. */
  lemma RollbackNeverPoisonsRestored(r: Record, target: string, leaving: string, now: int)
    ensures IsPoisoned(RecordRollback(r, target, leaving, now), target) <==> IsPoisoned(r, target)
  {
    if Blank(leaving) {
      assert RecordRollback(r, target, leaving, now).poisoned == r.poisoned;
    } else {
      RollbackRefusesOnlyTheLeft(r, target, leaving, now, target);
    }
  }

  /** An update that died in flight and whose failure, once counted, reaches the ceiling. */
  predicate DiesAtCeiling(r: Record) {
    && InterruptedPhase(r.phase) && r.attempt.kind == Update && !Blank(r.attempt.target)
    && FailureCount(r, TrimSpace(r.attempt.target)) + 1 >= DEFAULT_MAX_ATTEMPTS
  }

  /** Keeping the outcome of such an update refuses its target; keeping any other outcome refuses nothing. */
  lemma HoldRefusesIff(disk: Record, now: int, v: string)
    ensures IsPoisoned(HoldOutcome(disk, now), v) <==>
            IsPoisoned(disk, v) || (DiesAtCeiling(disk) && SameVersion(disk.attempt.target, v))
  {
    var held := HoldOutcome(disk, now);
    if DiesAtCeiling(disk) {
      var x := disk.attempt.target;
      OneMoreRefused(disk, held, x, FailedTimes(FailureCount(disk, TrimSpace(x)) + 1), v);
    } else {
      assert held.poisoned == disk.poisoned;
      if IsPoisoned(disk, v) { PoisonInherited(disk, held, v); }
      if IsPoisoned(held, v) { PoisonInherited(held, disk, v); }
    }
  }

  lemma PerformedPoison(held: Record, target: string, leaving: string, a: Answers, now: int)
    ensures PerformRollback(held, target, leaving, a, now).rec.poisoned == RecordRollback(held, target, leaving, now).poisoned
  {
    RollbackCountsNothing(RecordRollback(held, target, leaving, now), 1, target, DEFAULT_MAX_ATTEMPTS, a, now);
  }

  /** After a rollback that got as far as writing, the release it restores is refused if and only if it was before, or
      the outcome the rollback kept was the last failure allowed of an update to that very release. */
  lemma RollbackPoisonsRestoredIff(disk: Record, req: Request, cfg: Config, a: Answers, now: int, target: string)
    requires RollbackPass(disk, req, cfg, a, now).trace != []
    requires RestoreTarget(HoldOutcome(disk, now), req) == Some(target)
    ensures IsPoisoned(RollbackPass(disk, req, cfg, a, now).rec, target) <==>
            IsPoisoned(disk, target) || (DiesAtCeiling(disk) && SameVersion(disk.attempt.target, target))
  {
    var held, leaving := HoldOutcome(disk, now), Leaving(req, a);
    HoldRefusesIff(disk, now, target);
    RollbackNeverPoisonsRestored(held, target, leaving, now);
    PerformedPoison(held, target, leaving, a, now);
    var recorded, end := RecordRollback(held, target, leaving, now), RollbackPass(disk, req, cfg, a, now);
    assert end.rec.poisoned == recorded.poisoned;
    if IsPoisoned(recorded, target) { PoisonInherited(recorded, end.rec, target); }
    if IsPoisoned(end.rec, target) { PoisonInherited(end.rec, recorded, target); }
  }

  /** An update to v that died in flight after two counted failures. */
  function ThirdFailure(v: string): Record {
    NEW_JOURNAL.(phase := Executing, attempt := Attempt(v, "", Some(0), Some(0), Update), terminalSeq := 2,
                 failures := map[v := 2])
  }

  /** So it happens: a rollback to the release whose update keeps failing refuses the release it restores. */
  lemma RestoredCanBeRefused(v: string, cfg: Config, a: Answers)
    requires v == TrimSpace(v) != "" && !cfg.dryRun && a.packageHeld && a.running == Unreadable
    ensures var end := RollbackPass(ThirdFailure(v), Request(v, ""), cfg, a, INSTALL_GRACE);
            WellFormed(ThirdFailure(v)) && !IsPoisoned(ThirdFailure(v), v) && end.trace != [] && IsPoisoned(end.rec, v)
  {
    var disk, req := ThirdFailure(v), Request(v, "");
    NothingPoisonedYet(disk, v);
    assert RestoreTarget(HoldOutcome(disk, INSTALL_GRACE), req) == Some(v);
    assert RollbackPass(disk, req, cfg, a, INSTALL_GRACE).trace != [];
    SameVersionReflexive(v);
    RollbackPoisonsRestoredIff(disk, req, cfg, a, INSTALL_GRACE, v);
  }

  /** From there on a rollback changes no refusal, whatever fails. */
  lemma RollbackCountsNothing(r: Record, saves: nat, target: string, maxAttempts: int, a: Answers, now: int)
    ensures HandOver(r, saves, Rollback, target, maxAttempts, a, now).rec.poisoned == r.poisoned
    ensures HandOver(r, saves, Rollback, target, maxAttempts, a, now).rec.failures == r.failures
    ensures HandOver(r, saves, Rollback, target, maxAttempts, a, now).rec.outbox == r.outbox
  {
  }

  lemma LaunchKeepsRefusals(before: Record, begun: Record, target: string, a: Answers, now: int, v: string)
    requires WellFormed(begun) && begun.phase == Verified && begun.attempt.target == target && IsPoisoned(begun, v)
    requires Save(Start(begun), a).stored
    ensures var end := Continue(Save(Start(begun), a), Rollback, target, DEFAULT_MAX_ATTEMPTS, a, now);
      IsPoisoned(end.rec, v) && IsPoisoned(DiskAfter(before, end.trace), v)
  {
    var p := Save(Start(begun), a);
    var end := Continue(p, Rollback, target, DEFAULT_MAX_ATTEMPTS, a, now);
    RollbackCountsNothing(begun, 1, target, DEFAULT_MAX_ATTEMPTS, a, now);
    PoisonInherited(begun, end.rec, v);
    RecordedSound(begun, now, begun, Rollback, target, DEFAULT_MAX_ATTEMPTS, a);
    Replay(begun, now, end.trace);
    PoisonInherited(begun, DiskAfter(begun, end.trace), v);
    assert end.trace[0] == Saved(begun, Written);
    FirstSaveCarries(before, begun, end.trace);
  }

  /** A rollback that launched has left the escaped release refused, in memory and on disk, unless it is the
      release being restored. */
  lemma LaunchedRollbackPoisonsTheLeft(before: Record, held: Record, target: string, leaving: string, a: Answers, now: int)
    requires WellFormed(held) && !Blank(target) && !Blank(leaving) && !SameVersion(leaving, target)
    requires !NoLaunch(PerformRollback(held, target, leaving, a, now).trace)
    ensures IsPoisoned(PerformRollback(held, target, leaving, a, now).rec, leaving)
    ensures IsPoisoned(DiskAfter(before, PerformRollback(held, target, leaving, a, now).trace), leaving)
  {
    SameVersionReflexive(leaving);
    RollbackRefusesOnlyTheLeft(held, target, leaving, now, leaving);
    RefusalKeeps(held, target, leaving, now);
    LaunchKeepsRefusals(before, RecordRollback(held, target, leaving, now), target, a, now, leaving);
  }

  /** Once a journal has reached the disk, what was there before no longer matters. */
  lemma {:induction false} FirstSaveCarries(before: Record, begun: Record, trace: seq<Effect>)
    requires exists i :: 0 <= i < |trace| && trace[i].Saved? && trace[i].result == Written
    ensures DiskAfter(before, trace) == DiskAfter(begun, trace)
  {
    var i :| 0 <= i < |trace| && trace[i].Saved? && trace[i].result == Written;
    var front, last := trace[..|trace| - 1], trace[|trace| - 1];
    if !(last.Saved? && last.result != Kept) {
      assert front[i] == trace[i];
      FirstSaveCarries(before, begun, front);
    }
  }

  // ---- a rollback keeps the outcome it would erase ----

  /** The report a rollback must keep, if any: the outcome still owed, or the attempt that died unrecorded. */
  function OutcomeAtRisk(disk: Record, now: int): Option<Report> {
    if OwesOutcome(disk) then Some(ReportOf(disk, TerminalStatus(disk), now))
    else if InterruptedPhase(disk.phase) then Some(ReportOf(disk, ReportFailed, now))
    else None
  }

  /** One slot: a free one takes the report; a taken one keeps the older report and counts the loss. */
  function Filed(outbox: Outbox, report: Option<Report>): Outbox {
    if report.None? then outbox
    else if outbox.pending.Some? then outbox.(dropped := outbox.dropped + 1)
    else outbox.(pending := report)
  }

  lemma FailureKeepsReport(r: Record, note: FailureNote, max: int, now: int)
    ensures var f := RecordFailure(r, note, max, now);
            f.outbox == r.outbox && ReportOf(f, ReportFailed, now) == ReportOf(r, ReportFailed, now)
  {
  }

  lemma EnterKeepsReport(r: Record, note: FailureNote, now: int)
    ensures var f := Enter(r.(lastFailure := note), Failed, now);
            f.outbox == r.outbox && ReportOf(f, ReportFailed, now) == ReportOf(r, ReportFailed, now)
  {
  }

  lemma PendingIsFiled(r: Record, report: Report)
    ensures MarkPendingIfFree(r, report).outbox == Filed(r.outbox, Some(report))
  {
  }

  lemma HoldKeepsOutcome(disk: Record, now: int)
    ensures HoldOutcome(disk, now).outbox == Filed(disk.outbox, OutcomeAtRisk(disk, now))
  {
    var note := FailureNote(Some(AttemptInterrupted), false);
    if OwesOutcome(disk) {
      PendingIsFiled(disk, ReportOf(disk, TerminalStatus(disk), now));
    } else if InterruptedPhase(disk.phase) {
      EnterKeepsReport(disk, note, now);
      FailureKeepsReport(disk, note, DEFAULT_MAX_ATTEMPTS, now);
    }
  }

  lemma PerformKeepsOutbox(held: Record, target: string, leaving: string, a: Answers, now: int)
    ensures var end := PerformRollback(held, target, leaving, a, now);
      end.trace != [] && end.trace[0].Saved? && end.trace[0].rec.outbox == held.outbox && end.rec.outbox == held.outbox
  {
    var begun := RecordRollback(held, target, leaving, now);
    assert begun.outbox == held.outbox;
    RollbackCountsNothing(begun, 1, target, DEFAULT_MAX_ATTEMPTS, a, now);
  }

  /** Every rollback that reaches its first save has written down, with that save, the outcome it would have
      erased, and still holds it at the end. */
  lemma RollbackKeepsOutcome(disk: Record, req: Request, cfg: Config, a: Answers, now: int)
    requires RollbackPass(disk, req, cfg, a, now).trace != []
    ensures var end, kept := RollbackPass(disk, req, cfg, a, now), Filed(disk.outbox, OutcomeAtRisk(disk, now));
      end.trace[0].Saved? && end.trace[0].rec.outbox == kept && end.rec.outbox == kept
  {
    HoldKeepsOutcome(disk, now);
    DecidedKeepsOutbox(disk, HoldOutcome(disk, now), req, cfg, a, now);
  }

  lemma DecidedKeepsOutbox(disk: Record, held: Record, req: Request, cfg: Config, a: Answers, now: int)
    ensures var end := RollbackDecided(disk, held, req, cfg, a, now);
      end.trace != [] ==> end.trace[0].Saved? && end.trace[0].rec.outbox == held.outbox && end.rec.outbox == held.outbox
  {
    if RestoreTarget(held, req).Some? {
      PerformKeepsOutbox(held, RestoreTarget(held, req).value, Leaving(req, a), a, now);
    }
  }

  // ---- an update is recorded as an update, but for one case ----

  /** A Run that reaches the last stretch has its attempt recorded as an update, except exactly when the disk holds
      a rollback to the very version offered that died before changing anything: Run takes that attempt over, and
      its success will read as rolled back. */
  lemma RunRecordsUpdateIff(disk: Record, m: Manifest, cfg: Config, a: Answers, now: int)
    requires WellFormed(disk) && Prepare(disk, m, cfg, a, now).Ready?
    ensures Prepare(disk, m, cfg, a, now).pass.rec.attempt.kind == Update <==>
            !(disk.phase == Verified && disk.attempt.kind == Rollback && disk.attempt.target == m.version)
  {
    PrepareSound(disk, m, cfg, a, now);
  }

  lemma OpenGateGoesOn(r: Record, cfg: Config, a: Answers, now: int)
    requires a.materialCaptured && a.saves == []
    requires Gate.EvaluateGate(cfg.window, GateConditions(r, cfg, a)).Proceed?
    ensures var q := PassGate(Start(r), cfg, a, now); q.Ready? && q.pass.rec.attempt.kind == r.attempt.kind
  {
  }

  lemma NothingPoisonedYet(r: Record, version: string)
    requires r.poisoned == map[]
    ensures !IsPoisoned(r, version)
  {
  }

  /** An attempt that is at rest, at the offered version and from the running one is taken up as it is. */
  lemma AdmitTakesUp(disk: Record, m: Manifest, running: string, cfg: Config, a: Answers, now: int)
    requires disk.phase == Verified && disk.attempt.target == m.version && disk.attempt.from == running
    requires disk.attempt.startedAt.Some?
    ensures Admit(disk, m, running, cfg, a, now) == PassGate(Start(disk), cfg, a, now)
  {
    assert !NeedsBegin(disk, m);
  }

  lemma TakenUp(disk: Record, m: Manifest, running: string, cfg: Config, a: Answers, now: int)
    requires disk.phase == Verified && disk.poisoned == map[]
    requires a.running == Known(running) && Applicable(m, running, cfg.platform, cfg.arch) == None
    ensures Prepare(disk, m, cfg, a, now) == Admit(disk, m, running, cfg, a, now)
  {
    NothingPoisonedYet(disk, m.version);
  }

  /** The exception happens: any applicable release, once a rollback to it was recorded and the process died. */
  lemma RunTakesOverRollback(m: Manifest, running: string, cfg: Config, a: Answers, begun: int, now: int)
    requires a.running == Known(running) && Applicable(m, running, cfg.platform, cfg.arch) == None
    requires a.materialCaptured && a.saves == []
    requires Gate.EvaluateGate(cfg.window, GateConditions(BeginRollback(NEW_JOURNAL, m.version, running, begun), cfg, a)).Proceed?
    ensures var prepared := Prepare(BeginRollback(NEW_JOURNAL, m.version, running, begun), m, cfg, a, now);
      prepared.Ready? && prepared.pass.rec.attempt.kind == Rollback
  {
    var disk := BeginRollback(NEW_JOURNAL, m.version, running, begun);
    TakenUp(disk, m, running, cfg, a, now);
    AdmitTakesUp(disk, m, running, cfg, a, now);
    OpenGateGoesOn(disk, cfg, a, now);
  }
}
