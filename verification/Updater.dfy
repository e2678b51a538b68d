/** One pass of the updater over a journal: `Run` (agentupdate/runner.go), `Rollback` (agentupdate/rollback.go)
    and `Reconcile` (agentupdate/tick.go), as functions from the journal and the answers of the platform and of
    the disk to what the pass does, in order. */
module Updater {
  import opened Text
  import opened Versions
  import opened Journals
  import Gate

  /** A save that fails may have left the old journal or the new one on disk. */
  datatype SaveResult = Written | Kept | Replaced

  /** What one pass does to the outside world, in order. */
  datatype Effect =
    | Saved(rec: Record, result: SaveResult)
    | DisarmCall(ok: bool)
    | RearmCall(ok: bool)
    | Launch(kind: Kind, version: string, ok: bool)

  datatype Running = Known(version: string) | AgentNotRunning | VersionUnknown | Unreadable

  /** Everything the platform and the disk answer during one pass; saves beyond the list succeed. */
  datatype Answers = Answers(
    running: Running, conditions: Gate.Conditions, materialCaptured: bool, packageHeld: bool,
    mayDisarm: bool, disarmOk: bool, rearmOk: bool, launchOk: bool, saves: seq<SaveResult>)

  datatype Config = Config(
    window: Gate.Window, maxAttempts: int, platform: string, arch: string,
    planHold: string, frozen: bool, eligibleSince: Option<int>, dryRun: bool, steeringSurvives: bool)

  datatype Request = Request(toVersion: string, leavingVersion: string)

  /** `CheckNetwork` is `Resumed` with the instruction to check this box's network before anything else. */
  datatype Action = NoAction | Nothing | Waiting | Launching | WouldLaunch | InProgress | Refused | Resumed | CheckNetwork

  /** `steeringAlarm`: the reason given says steering came down and could not be confirmed restored. */
  datatype Outcome = Outcome(action: Action, steeringAlarm: bool)

  datatype Fault = RecordFault | RunningVersionFault | LaunchFault | SteeringFault

  /** How a pass ended: the journal in memory, the effects, and what the caller is told. */
  datatype End = End(rec: Record, trace: seq<Effect>, out: Outcome, faults: set<Fault>)

  datatype Pass = Pass(rec: Record, trace: seq<Effect>, saves: nat, stored: bool)

  function SaveAt(a: Answers, i: nat): SaveResult {
    if i < |a.saves| then a.saves[i] else Written
  }

  function Save(p: Pass, a: Answers): Pass {
    var result := SaveAt(a, p.saves);
    Pass(p.rec, p.trace + [Saved(p.rec, result)], p.saves + 1, result == Written)
  }

  function Start(r: Record): Pass { Pass(r, [], 0, true) }

  function Stop(p: Pass, action: Action): End { End(p.rec, p.trace, Outcome(action, false), {}) }

  function StopUnrecorded(p: Pass): End { End(p.rec, p.trace, Outcome(NoAction, false), {RecordFault}) }

  // ---- Run ----

  datatype Prepared = Stopped(end: End) | Ready(pass: Pass)

  predicate OnlySaves(trace: seq<Effect>) {
    forall i :: 0 <= i < |trace| ==> trace[i].Saved?
  }

  /** What an exit before anything was touched tells: no launch, and no word of steering. */
  predicate Harmless(end: End) {
    end.out.action !in {Launching, WouldLaunch} && !end.out.steeringAlarm
    && end.faults <= {RecordFault, RunningVersionFault}
  }

  function GateConditions(r: Record, cfg: Config, a: Answers): Gate.Conditions {
    var c := a.conditions;
    c.(frozen := c.frozen || cfg.frozen,
       planHold := cfg.planHold,
       eligibleSince := if cfg.eligibleSince.Some? then cfg.eligibleSince
                        else if c.eligibleSince.Some? then c.eligibleSince else r.attempt.startedAt)
  }

  /** The gate, then restore material; nothing has been touched yet. */
  function PassGate(p: Pass, cfg: Config, a: Answers, now: int): (q: Prepared)
    ensures q.Stopped? ==> Harmless(q.end)
    ensures OnlySaves(p.trace) ==> OnlySaves(if q.Stopped? then q.end.trace else q.pass.trace)
  {
    match Gate.EvaluateGate(cfg.window, GateConditions(p.rec, cfg, a))
    case Wait(reason) =>
      var q := Save(p.(rec := RecordWait(p.rec, GateWait(reason))), a);
      Stopped(if q.stored then Stop(q, Waiting) else StopUnrecorded(q))
    case Proceed(_) =>
      if !a.materialCaptured then Stopped(Stop(p, Refused))
      else
        var q := Save(p.(rec := Enter(p.rec, Snapshotted, now)), a);
        if q.stored then Ready(q) else Stopped(StopUnrecorded(q))
  }

  /** A new attempt unless this one is already recorded and not finished. */
  predicate NeedsBegin(r: Record, m: Manifest) {
    r.attempt.target != m.version || r.attempt.startedAt.None? || Terminal(r)
  }

  function Admit(r: Record, m: Manifest, running: string, cfg: Config, a: Answers, now: int): (q: Prepared)
    ensures q.Stopped? ==> Harmless(q.end)
    ensures OnlySaves(if q.Stopped? then q.end.trace else q.pass.trace)
  {
    var p :=
      if NeedsBegin(r, m) then Save(Start(Begin(r, m.version, running, now)), a)
      else if running != "" && r.attempt.from != running then
        Save(Start(r.(attempt := r.attempt.(from := running))), a)
      else Start(r);
    if p.stored then PassGate(p, cfg, a, now) else Stopped(StopUnrecorded(p))
  }

  /** An attempt that died is closed; steering that outlives the agent may have been left down. */
  function ClosingAction(r: Record, cfg: Config): Action {
    if NeedsNetworkRecovery(r) && cfg.steeringSurvives then CheckNetwork else Resumed
  }

  function Prepare(r: Record, m: Manifest, cfg: Config, a: Answers, now: int): (q: Prepared)
    ensures q.Stopped? ==> Harmless(q.end)
    ensures OnlySaves(if q.Stopped? then q.end.trace else q.pass.trace)
  {
    if InterruptedPhase(r.phase) && InstallYoung(r, now) then Stopped(Stop(Start(r), InProgress))
    else if InterruptedPhase(r.phase) then
      var p := Save(Start(Enter(r, Failed, now)), a);
      Stopped(if p.stored then Stop(p, ClosingAction(r, cfg)) else StopUnrecorded(p))
    else if IsPoisoned(r, m.version) then Stopped(Stop(Start(r), Refused))
    else
      match a.running
      case Known(v) =>
        if Applicable(m, v, cfg.platform, cfg.arch).Some? then Stopped(Stop(Start(r), Nothing))
        else Admit(r, m, v, cfg, a, now)
      case Unreadable => Stopped(End(r, [], Outcome(NoAction, false), {RunningVersionFault}))
      case _ => Stopped(Stop(Start(r), Refused))
  }

  function LaunchPhase(kind: Kind): Phase { if kind == Update then Executing else RollingBack }

  /** The journal after a disarm that could not be confirmed: an update counts it, a rollback does not. */
  function AfterDisarmFailure(r: Record, kind: Kind, maxAttempts: int, now: int): Record {
    if kind == Update then RecordFailure(r, FailureNote(Some(DisarmFailed), false), maxAttempts, now)
    else Enter(r, Failed, now)
  }

  /** The journal after a launch that did not happen: never counted against the version a rollback restores. */
  function AfterLaunchFailure(r: Record, kind: Kind, steeringLost: bool, maxAttempts: int, now: int): Record {
    if kind == Update then RecordFailure(r, FailureNote(Some(ExecuteFailed), steeringLost), maxAttempts, now)
    else Enter(r.(lastFailure := FailureNote(Some(RollbackLaunchFailed), steeringLost)), Failed, now)
  }

  /** The last stretch, shared in shape by update and rollback: disarm where posture permits, record, launch;
      and put steering back on every exit that took it down and launched nothing. `saves` is how many saves the
      pass has made; the trace is what happens from here on. */
  function HandOver(r: Record, saves: nat, kind: Kind, version: string, maxAttempts: int, a: Answers, now: int): End {
    if !a.mayDisarm then LaunchStage(r, saves, [], kind, version, maxAttempts, a, now)
    else
      var d := Enter(r, Disarmed, now);
      var result := SaveAt(a, saves);
      if result != Written then
        End(d, [Saved(d, result)], Outcome(NoAction, false), {RecordFault})
      else if a.disarmOk then
        LaunchStage(d, saves + 1, [Saved(d, Written), DisarmCall(true)], kind, version, maxAttempts, a, now)
      else
        var f := AfterDisarmFailure(d, kind, maxAttempts, now);
        var last := SaveAt(a, saves + 1);
        End(f, [Saved(d, Written), DisarmCall(false), Saved(f, last)],
            Outcome(if last == Written then Refused else NoAction, false),
            if last == Written then {} else {RecordFault})
  }

  /** From the save of the launch phase on; `soFar` is empty, or the recorded and completed disarm. */
  function LaunchStage(r: Record, saves: nat, soFar: seq<Effect>, kind: Kind, version: string, maxAttempts: int,
                       a: Answers, now: int): End
  {
    var disarmed := soFar != [];
    var x := Enter(r, LaunchPhase(kind), now);
    var result := SaveAt(a, saves);
    var last := SaveAt(a, saves + 1);
    if result != Written then
      // The deferred restore.
      if !disarmed then
        End(x, soFar + [Saved(x, result)], Outcome(NoAction, false), {RecordFault})
      else if a.rearmOk then
        End(x, soFar + [Saved(x, result), RearmCall(true)], Outcome(NoAction, false), {RecordFault})
      else
        var noted := x.(lastFailure := x.lastFailure.(steeringUnconfirmed := true));
        End(noted, soFar + [Saved(x, result), RearmCall(false), Saved(noted, last)],
            Outcome(Refused, true), {RecordFault, SteeringFault})
    else if a.launchOk then
      End(x, soFar + [Saved(x, Written), Launch(kind, version, true)], Outcome(Launching, false), {})
    else
      var steeringLost := disarmed && !a.rearmOk;
      var f := AfterLaunchFailure(x, kind, steeringLost, maxAttempts, now);
      var tried := [Saved(x, Written), Launch(kind, version, false)];
      End(f, soFar + (if disarmed then tried + [RearmCall(a.rearmOk), Saved(f, last)] else tried + [Saved(f, last)]),
          if last == Written || kind == Update then Outcome(Refused, steeringLost) else Outcome(NoAction, false),
          if last == Written then {}
          else if kind == Rollback then {RecordFault}
          else {RecordFault, LaunchFault} + (if steeringLost then {SteeringFault} else {}))
  }

  /** What the pass did before, then the last stretch. */
  function Continue(p: Pass, kind: Kind, version: string, maxAttempts: int, a: Answers, now: int): End {
    var end := HandOver(p.rec, p.saves, kind, version, maxAttempts, a, now);
    end.(trace := p.trace + end.trace)
  }

  /** The rehearsal runs against a copy, its saves store nothing, and it stops before steering. */
  function Rehearse(r: Record, m: Manifest, cfg: Config, a: Answers, now: int): End {
    match Prepare(r, m, cfg, a.(saves := []), now)
    case Stopped(end) => End(r, [], end.out, end.faults)
    case Ready(_) => End(r, [], Outcome(WouldLaunch, false), {})
  }

  function Perform(r: Record, m: Manifest, cfg: Config, a: Answers, now: int): End {
    match Prepare(r, m, cfg, a, now)
    case Stopped(end) => end
    case Ready(p) => Continue(p, Update, m.version, cfg.maxAttempts, a, now)
  }

  function RunPass(r: Record, m: Manifest, cfg: Config, a: Answers, now: int): End {
    if cfg.dryRun then Rehearse(r, m, cfg, a, now) else Perform(r, m, cfg, a, now)
  }

  // ---- Rollback ----

  /** Keep the outcome a rollback would otherwise erase: one still owed, or an attempt that died unrecorded. */
  function HoldOutcome(r: Record, now: int): Record {
    if OwesOutcome(r) then MarkPendingIfFree(r, ReportOf(r, TerminalStatus(r), now))
    else if InterruptedPhase(r.phase) then
      var note := FailureNote(Some(AttemptInterrupted), false);
      var f := if r.attempt.kind == Rollback then Enter(r.(lastFailure := note), Failed, now)
               else RecordFailure(r, note, DEFAULT_MAX_ATTEMPTS, now);
      MarkPendingIfFree(f, ReportOf(f, ReportFailed, now))
    else r
  }

  /** The build being escaped: the running one, or the caller's weaker answer when it cannot be read. */
  function Leaving(req: Request, a: Answers): string {
    if a.running.Known? then a.running.version else TrimSpace(req.leavingVersion)
  }

  /** What to restore; None when nothing may be named. */
  function RestoreTarget(r: Record, req: Request): Option<string> {
    var named := TrimSpace(req.toVersion);
    if named != "" then Some(named)
    else if r.attempt.kind == Rollback || Blank(r.attempt.from) then None
    else Some(TrimSpace(r.attempt.from))
  }

  /** Record the rollback and refuse the version being left, never the one being restored. */
  function RecordRollback(r: Record, target: string, leaving: string, now: int): Record {
    var b := BeginRollback(r, target, leaving, now);
    if leaving == "" then b
    else if SameVersion(leaving, target) then RecordWait(b, NothingRefused)
    else Refuse(b, leaving, LeftBehind(target))
  }

  /** From the first write on. */
  function PerformRollback(held: Record, target: string, leaving: string, a: Answers, now: int): End {
    var p := Save(Start(RecordRollback(held, target, leaving, now)), a);
    if !p.stored then StopUnrecorded(p) else Continue(p, Rollback, target, DEFAULT_MAX_ATTEMPTS, a, now)
  }

  /** What the operator asked for, judged against the journal `held` that keeps the outcome. */
  function RollbackDecided(r: Record, held: Record, req: Request, cfg: Config, a: Answers, now: int): End {
    var shown := if cfg.dryRun then r else held;
    match RestoreTarget(held, req)
    case None => Stop(Start(shown), Refused)
    case Some(target) =>
      if a.running.Known? && a.running.version != "" && SameVersion(target, a.running.version) then
        Stop(Start(shown), Nothing)
      else if !a.packageHeld then Stop(Start(shown), Refused)
      else if cfg.dryRun then Stop(Start(r), WouldLaunch)
      else PerformRollback(held, target, Leaving(req, a), a, now)
  }

  function RollbackPass(r: Record, req: Request, cfg: Config, a: Answers, now: int): End {
    if InterruptedPhase(r.phase) && InstallYoung(r, now) then Stop(Start(r), Refused)
    else RollbackDecided(r, HoldOutcome(r, now), req, cfg, a, now)
  }

  // ---- Reconcile ----

  /** An open attempt is closed when the version that came back up is its target. */
  predicate Lands(r: Record, running: Option<string>) {
    InterruptedPhase(r.phase) && running.Some? && SameVersion(running.value, r.attempt.target)
  }

  function Reconcile(r: Record, running: Option<string>, now: int): Record {
    if Lands(r, running) then RecordSuccess(r, now) else r
  }
}
