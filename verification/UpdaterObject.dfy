/** The updater as it runs: a journal object changed in place, a device that performs and records each effect, and
    the passes as sequences of statements with their early exits and deferred restore. Every method is proved
    against the pass functions. */
module UpdaterObject {
  import opened Text
  import opened Versions
  import opened Journals
  import opened Updater
  import Gate

  /** The platform and the journal file during one pass. */
  class Device {
    const answers: Answers
    var trace: seq<Effect>
    var saves: nat

    constructor (answers: Answers)
      ensures this.answers == answers && trace == [] && saves == 0
    {
      this.answers := answers;
      trace, saves := [], 0;
    }

    method Store(j: Journal) returns (ok: bool)
      modifies this
      ensures var result := SaveAt(answers, old(saves));
        ok == (result == Written) && saves == old(saves) + 1 && trace == old(trace) + [Saved(j.View(), result)]
    {
      var result := SaveAt(answers, saves);
      trace, saves := trace + [Saved(j.View(), result)], saves + 1;
      return result == Written;
    }

    method Disarm() returns (ok: bool)
      modifies this`trace
      ensures ok == answers.disarmOk && trace == old(trace) + [DisarmCall(ok)]
    {
      ok := answers.disarmOk;
      trace := trace + [DisarmCall(ok)];
    }

    method Rearm() returns (ok: bool)
      modifies this`trace
      ensures ok == answers.rearmOk && trace == old(trace) + [RearmCall(ok)]
    {
      ok := answers.rearmOk;
      trace := trace + [RearmCall(ok)];
    }

    method LaunchInstaller(kind: Kind, version: string) returns (ok: bool)
      modifies this`trace
      ensures ok == answers.launchOk && trace == old(trace) + [Launch(kind, version, ok)]
    {
      ok := answers.launchOk;
      trace := trace + [Launch(kind, version, ok)];
    }
  }

  /** The journal in memory and the effects so far are those of p. */
  predicate At(j: Journal, d: Device, p: Pass)
    reads j, d
  {
    j.View() == p.rec && d.trace == p.trace && d.saves == p.saves
  }

  method AwaitGate(j: Journal, cfg: Config, d: Device, now: int, ghost p: Pass)
    returns (ready: bool, out: Outcome, faults: set<Fault>)
    requires At(j, d, p)
    modifies j, d
    ensures match PassGate(p, cfg, d.answers, now)
      case Ready(q) => ready && At(j, d, q)
      case Stopped(end) => !ready && j.View() == end.rec && d.trace == end.trace && out == end.out && faults == end.faults
  {
    var gate := Gate.EvaluateGate(cfg.window, GateConditions(j.View(), cfg, d.answers));
    if gate.Wait? {
      j.lastWait := GateWait(gate.reason);
      var ok := d.Store(j);
      return false, Outcome(if ok then Waiting else NoAction, false), if ok then {} else {RecordFault};
    }
    if !d.answers.materialCaptured {
      return false, Outcome(Refused, false), {};
    }
    j.EnterPhase(Snapshotted, now);
    var ok := d.Store(j);
    return ok, Outcome(NoAction, false), if ok then {} else {RecordFault};
  }

  method Begin(j: Journal, m: Manifest, running: string, cfg: Config, d: Device, now: int)
    returns (ready: bool, out: Outcome, faults: set<Fault>)
    requires d.trace == [] && d.saves == 0
    modifies j, d
    ensures match Admit(old(j.View()), m, running, cfg, d.answers, now)
      case Ready(q) => ready && At(j, d, q)
      case Stopped(end) => !ready && j.View() == end.rec && d.trace == end.trace && out == end.out && faults == end.faults
  {
    ghost var p := Start(j.View());
    if NeedsBegin(j.View(), m) {
      j.BeginAttempt(m.version, running, now, Update);
      p := Save(Start(j.View()), d.answers);
      var ok := d.Store(j);
      if !ok {
        return false, Outcome(NoAction, false), {RecordFault};
      }
    } else if running != "" && j.attempt.from != running {
      j.attempt := j.attempt.(from := running);
      p := Save(Start(j.View()), d.answers);
      var ok := d.Store(j);
      if !ok {
        return false, Outcome(NoAction, false), {RecordFault};
      }
    }
    ready, out, faults := AwaitGate(j, cfg, d, now, p);
  }

  method PrepareRun(j: Journal, m: Manifest, cfg: Config, d: Device, now: int)
    returns (ready: bool, out: Outcome, faults: set<Fault>)
    requires d.trace == [] && d.saves == 0
    modifies j, d
    ensures match Prepare(old(j.View()), m, cfg, d.answers, now)
      case Ready(q) => ready && At(j, d, q)
      case Stopped(end) => !ready && j.View() == end.rec && d.trace == end.trace && out == end.out && faults == end.faults
  {
    if InterruptedPhase(j.phase) {
      if InstallYoung(j.View(), now) {
        return false, Outcome(InProgress, false), {};
      }
      // Asked before the phase that answers it is overwritten.
      var action := ClosingAction(j.View(), cfg);
      j.EnterPhase(Failed, now);
      var ok := d.Store(j);
      return false, Outcome(if ok then action else NoAction, false), if ok then {} else {RecordFault};
    }
    if IsPoisoned(j.View(), m.version) {
      return false, Outcome(Refused, false), {};
    }
    match d.answers.running {
      case Known(running) =>
        if Applicable(m, running, cfg.platform, cfg.arch).Some? {
          return false, Outcome(Nothing, false), {};
        }
        ready, out, faults := Begin(j, m, running, cfg, d, now);
      case Unreadable =>
        return false, Outcome(NoAction, false), {RunningVersionFault};
      case _ =>
        return false, Outcome(Refused, false), {};
    }
  }

  /** An installer that did not start: restore steering if it was taken down, and record the failure. */
  method AfterFailedLaunch(j: Journal, kind: Kind, maxAttempts: int, d: Device, now: int, disarmed: bool)
    returns (out: Outcome, faults: set<Fault>)
    modifies j, d
    ensures var lost, last := disarmed && !d.answers.rearmOk, SaveAt(d.answers, old(d.saves));
      var f := AfterLaunchFailure(old(j.View()), kind, lost, maxAttempts, now);
      && j.View() == f
      && d.trace == old(d.trace) + (if disarmed then [RearmCall(d.answers.rearmOk), Saved(f, last)] else [Saved(f, last)])
      && out == (if last == Written || kind == Update then Outcome(Refused, lost) else Outcome(NoAction, false))
      && faults == (if last == Written then {} else if kind == Rollback then {RecordFault}
                    else {RecordFault, LaunchFault} + (if lost then {SteeringFault} else {}))
  {
    var restored := true;
    if disarmed {
      restored := d.Rearm();
    }
    if kind == Update {
      var _ := j.CountFailure(FailureNote(Some(ExecuteFailed), !restored), maxAttempts, now);
    } else {
      j.lastFailure := FailureNote(Some(RollbackLaunchFailed), !restored);
      j.EnterPhase(Failed, now);
    }
    var ok := d.Store(j);
    if ok {
      out, faults := Outcome(Refused, !restored), {};
    } else if kind == Rollback {
      out, faults := Outcome(NoAction, false), {RecordFault};
    } else {
      out, faults := Outcome(Refused, !restored), {RecordFault, LaunchFault} + (if restored then {} else {SteeringFault});
    }
  }

  /** The launch, from the recorded phase on, and the restore an unlaunched installer calls for. `disarmed` says
      whether steering was taken down; it comes back false when this method has already tried to restore it. */
  method LaunchNow(j: Journal, kind: Kind, version: string, maxAttempts: int, d: Device, now: int, disarmed: bool)
    returns (out: Outcome, faults: set<Fault>, launched: bool, stillDown: bool)
    modifies j, d
    ensures var x := Enter(old(j.View()), LaunchPhase(kind), now);
      var result, last := SaveAt(d.answers, old(d.saves)), SaveAt(d.answers, old(d.saves) + 1);
      var lost := disarmed && !d.answers.rearmOk;
      if result != Written then
        && j.View() == x && d.trace == old(d.trace) + [Saved(x, result)] && d.saves == old(d.saves) + 1
        && out == Outcome(NoAction, false) && faults == {RecordFault} && !launched && stillDown == disarmed
      else if d.answers.launchOk then
        && j.View() == x && d.trace == old(d.trace) + [Saved(x, Written), Launch(kind, version, true)]
        && out == Outcome(Launching, false) && faults == {} && launched
      else
        var f := AfterLaunchFailure(x, kind, lost, maxAttempts, now);
        && j.View() == f && !launched && !stillDown
        && d.trace == old(d.trace) + (if disarmed
             then [Saved(x, Written), Launch(kind, version, false)] + [RearmCall(d.answers.rearmOk), Saved(f, last)]
             else [Saved(x, Written), Launch(kind, version, false)] + [Saved(f, last)])
        && out == (if last == Written || kind == Update then Outcome(Refused, lost) else Outcome(NoAction, false))
        && faults == (if last == Written then {} else if kind == Rollback then {RecordFault}
                      else {RecordFault, LaunchFault} + (if lost then {SteeringFault} else {}))
  {
    j.EnterPhase(LaunchPhase(kind), now);
    var ok := d.Store(j);
    if !ok {
      return Outcome(NoAction, false), {RecordFault}, false, disarmed;
    }
    launched := d.LaunchInstaller(kind, version);
    if launched {
      return Outcome(Launching, false), {}, true, disarmed;
    }
    out, faults := AfterFailedLaunch(j, kind, maxAttempts, d, now, disarmed);
    stillDown := false;
  }

  /** Put steering back, or write down that it may still be down. */
  method RestoreSteering(j: Journal, d: Device) returns (restored: bool, faults: set<Fault>)
    modifies j, d
    ensures restored == d.answers.rearmOk
    ensures restored ==> j.View() == old(j.View()) && d.trace == old(d.trace) + [RearmCall(true)]
    ensures !restored ==>
      var r, last := old(j.View()), SaveAt(d.answers, old(d.saves));
      var noted := r.(lastFailure := r.lastFailure.(steeringUnconfirmed := true));
      && j.View() == noted && d.trace == old(d.trace) + [RearmCall(false), Saved(noted, last)]
      && faults == {SteeringFault} + (if last == Written then {} else {RecordFault})
  {
    restored := d.Rearm();
    faults := {};
    if !restored {
      j.lastFailure := j.lastFailure.(steeringUnconfirmed := true);
      var ok := d.Store(j);
      faults := {SteeringFault} + (if ok then {} else {RecordFault});
    }
  }

  /** The launch and the deferred block: every exit after a successful disarm that launched nothing and has not
      been restored yet tries to put steering back. `soFar` is what this stretch has done before. */
  method LaunchWithRestore(j: Journal, kind: Kind, version: string, maxAttempts: int, d: Device, now: int, disarmed: bool,
                           ghost base: seq<Effect>, ghost soFar: seq<Effect>)
    returns (out: Outcome, faults: set<Fault>)
    requires disarmed == (soFar != []) && d.trace == base + soFar
    modifies j, d
    ensures var end := LaunchStage(old(j.View()), old(d.saves), soFar, kind, version, maxAttempts, d.answers, now);
      j.View() == end.rec && d.trace == base + end.trace && out == end.out && faults == end.faults
  {
    var launched, stillDown;
    out, faults, launched, stillDown := LaunchNow(j, kind, version, maxAttempts, d, now, disarmed);
    if stillDown && !launched {
      var restored, more := RestoreSteering(j, d);
      if !restored {
        out, faults := Outcome(Refused, true), faults + more;
      }
    }
  }

  /** Steering that could not be taken down: nothing is launched, and the failure is recorded. */
  method AfterFailedDisarm(j: Journal, kind: Kind, maxAttempts: int, d: Device, now: int)
    returns (out: Outcome, faults: set<Fault>)
    modifies j, d
    ensures var f, last := AfterDisarmFailure(old(j.View()), kind, maxAttempts, now), SaveAt(d.answers, old(d.saves));
      && j.View() == f && d.trace == old(d.trace) + [Saved(f, last)]
      && out == Outcome(if last == Written then Refused else NoAction, false)
      && faults == if last == Written then {} else {RecordFault}
  {
    if kind == Update {
      var _ := j.CountFailure(FailureNote(Some(DisarmFailed), false), maxAttempts, now);
    } else {
      j.EnterPhase(Failed, now);
    }
    var ok := d.Store(j);
    return Outcome(if ok then Refused else NoAction, false), if ok then {} else {RecordFault};
  }

  method HandOverNow(j: Journal, kind: Kind, version: string, maxAttempts: int, d: Device, now: int)
    returns (out: Outcome, faults: set<Fault>)
    modifies j, d
    ensures var end := HandOver(old(j.View()), old(d.saves), kind, version, maxAttempts, d.answers, now);
      j.View() == end.rec && d.trace == old(d.trace) + end.trace && out == end.out && faults == end.faults
  {
    ghost var base := d.trace;
    if !d.answers.mayDisarm {
      out, faults := LaunchWithRestore(j, kind, version, maxAttempts, d, now, false, base, []);
      return;
    }
    j.EnterPhase(Disarmed, now);
    ghost var recorded := j.View();
    var ok := d.Store(j);
    if !ok {
      return Outcome(NoAction, false), {RecordFault};
    }
    var disarmed := d.Disarm();
    if disarmed {
      assert d.trace == base + [Saved(recorded, Written), DisarmCall(true)];
      out, faults := LaunchWithRestore(j, kind, version, maxAttempts, d, now, true, base,
                                       [Saved(recorded, Written), DisarmCall(true)]);
      return;
    }
    out, faults := AfterFailedDisarm(j, kind, maxAttempts, d, now);
  }

  /** One pass of Run. A rehearsal works on a copy of the journal, against a device that stores nothing. */
  method Run(j: Journal, m: Manifest, cfg: Config, d: Device, now: int) returns (out: Outcome, faults: set<Fault>)
    requires d.trace == [] && d.saves == 0
    modifies j, d
    ensures var end := RunPass(old(j.View()), m, cfg, d.answers, now);
      j.View() == end.rec && d.trace == end.trace && out == end.out && faults == end.faults
  {
    if cfg.dryRun {
      var copy := new Journal(j.View());
      var quiet := new Device(d.answers.(saves := []));
      var ready;
      ready, out, faults := PrepareRun(copy, m, cfg, quiet, now);
      if ready {
        out, faults := Outcome(WouldLaunch, false), {};
      }
      return;
    }
    var ready;
    ready, out, faults := PrepareRun(j, m, cfg, d, now);
    if ready {
      out, faults := HandOverNow(j, Update, m.version, cfg.maxAttempts, d, now);
    }
  }

  method HoldOutcomeNow(j: Journal, now: int)
    modifies j
    ensures j.View() == HoldOutcome(old(j.View()), now)
  {
    if OwesOutcome(j.View()) {
      var _ := j.HoldReport(ReportOf(j.View(), TerminalStatus(j.View()), now));
    } else if InterruptedPhase(j.phase) {
      var note := FailureNote(Some(AttemptInterrupted), false);
      if j.attempt.kind == Rollback {
        j.lastFailure := note;
        j.EnterPhase(Failed, now);
      } else {
        var _ := j.CountFailure(note, DEFAULT_MAX_ATTEMPTS, now);
      }
      var _ := j.HoldReport(ReportOf(j.View(), ReportFailed, now));
    }
  }

  method RecordRollbackNow(j: Journal, target: string, leaving: string, now: int)
    modifies j
    ensures j.View() == RecordRollback(old(j.View()), target, leaving, now)
  {
    j.BeginAttempt(target, leaving, now, Rollback);
    if leaving != "" {
      if SameVersion(leaving, target) {
        j.lastWait := NothingRefused;
      } else {
        j.RefuseVersion(leaving, LeftBehind(target));
      }
    }
  }

  method PerformRollbackNow(j: Journal, target: string, leaving: string, d: Device, now: int)
    returns (out: Outcome, faults: set<Fault>)
    requires d.trace == [] && d.saves == 0
    modifies j, d
    ensures var end := PerformRollback(old(j.View()), target, leaving, d.answers, now);
      j.View() == end.rec && d.trace == end.trace && out == end.out && faults == end.faults
  {
    RecordRollbackNow(j, target, leaving, now);
    var ok := d.Store(j);
    if !ok {
      return Outcome(NoAction, false), {RecordFault};
    }
    out, faults := HandOverNow(j, Rollback, target, DEFAULT_MAX_ATTEMPTS, d, now);
  }

  method RollBack(j: Journal, req: Request, cfg: Config, d: Device, now: int) returns (out: Outcome, faults: set<Fault>)
    requires d.trace == [] && d.saves == 0
    modifies j, d
    ensures var end := RollbackPass(old(j.View()), req, cfg, d.answers, now);
      j.View() == end.rec && d.trace == end.trace && out == end.out && faults == end.faults
  {
    if InterruptedPhase(j.phase) && InstallYoung(j.View(), now) {
      return Outcome(Refused, false), {};
    }
    var work := j;
    if cfg.dryRun {
      work := new Journal(j.View());
    }
    HoldOutcomeNow(work, now);
    var target := RestoreTarget(work.View(), req);
    if target.None? {
      return Outcome(Refused, false), {};
    }
    if d.answers.running.Known? && d.answers.running.version != "" && SameVersion(target.value, d.answers.running.version) {
      return Outcome(Nothing, false), {};
    }
    if !d.answers.packageHeld {
      return Outcome(Refused, false), {};
    }
    if cfg.dryRun {
      return Outcome(WouldLaunch, false), {};
    }
    out, faults := PerformRollbackNow(j, target.value, Leaving(req, d.answers), d, now);
  }

  method ReconcileNow(j: Journal, running: Option<string>, now: int) returns (changed: bool)
    modifies j
    ensures j.View() == Reconcile(old(j.View()), running, now)
    ensures changed <==> Lands(old(j.View()), running)
  {
    if !InterruptedPhase(j.phase) || running.None? || !SameVersion(running.value, j.attempt.target) {
      return false;
    }
    j.CountSuccess(now);
    return true;
  }
}
