/** What one pass of the updater guarantees of the effects it has, whatever the platform and the disk answer:
    the local facts the whole-run theorems rest on. */
module UpdaterPasses {
  import opened Text
  import opened Versions
  import opened Journals
  import opened Updater
  import Gate

  // ---- what every saved journal satisfies ----

  lemma {:induction false} EnterKeeps(r: Record, p: Phase, now: int)
    requires WellFormed(r) && r.phase != Idle
    requires p in {Snapshotted, Disarmed, Executing, RollingBack, Completed, Failed, RolledBack}
    ensures WellFormed(Enter(r, p, now))
  {
    if r.outbox.reported != "" {
      var q: nat :| 0 < q <= r.terminalSeq && EndsWithSeq(r.outbox.reported, q);
      assert q <= Enter(r, p, now).terminalSeq;
    }
  }

  lemma BeginKeeps(r: Record, target: string, from: string, now: int)
    requires WellFormed(r) && !Blank(target)
    ensures WellFormed(Begin(r, target, from, now)) && WellFormed(BeginRollback(r, target, from, now))
  {
  }

  lemma FailureKeeps(r: Record, note: FailureNote, maxAttempts: int, now: int)
    requires WellFormed(r) && r.phase != Idle
    ensures WellFormed(RecordFailure(r, note, maxAttempts, now))
    ensures r.poisoned.Keys <= RecordFailure(r, note, maxAttempts, now).poisoned.Keys
  {
    TrimIdempotent(r.attempt.target);
    var v := TrimSpace(r.attempt.target);
    var counted := r.(lastFailure := note, failures := r.failures[v := FailureCount(r, v) + 1]);
    EnterKeeps(counted, Failed, now);
  }

  /** The edits the callers make around a pass: everything about reports, and the floor of accepted plans. */
  predicate IsBookkeeping(op: Op) {
    op.OpPendingIfFree? || op.OpPending? || op.OpClearPending? || op.OpClearQueueFailures? || op.OpForgetAssumed?
    || op.OpReported? || op.OpQueueFailure? || op.OpPlanFloor?
  }

  /** Same attempt, phase, counters and refusals. */
  predicate SameCore(r: Record, s: Record) {
    && r.attempt == s.attempt && r.phase == s.phase && r.terminalSeq == s.terminalSeq
    && r.failures == s.failures && r.poisoned == s.poisoned && r.lastFailure == s.lastFailure
  }

  lemma BookkeepingStepKeeps(r: Record, op: Op)
    requires WellFormed(r) && IsBookkeeping(op)
    ensures WellFormed(Apply(r, op)) && SameCore(r, Apply(r, op))
  {
    if ReportablePhase(r.phase) { FingerprintEnds(r); }
  }

  lemma {:induction false} BookkeepingKeeps(r: Record, ops: seq<Op>)
    requires WellFormed(r) && forall i :: 0 <= i < |ops| ==> IsBookkeeping(ops[i])
    ensures WellFormed(ApplyAll(r, ops)) && SameCore(r, ApplyAll(r, ops))
  {
    if ops != [] {
      var front := ops[..|ops| - 1];
      BookkeepingKeeps(r, front);
      BookkeepingStepKeeps(ApplyAll(r, front), ops[|ops| - 1]);
    }
  }

  lemma HoldKeeps(r: Record, now: int)
    requires WellFormed(r)
    ensures WellFormed(HoldOutcome(r, now))
    ensures r.poisoned.Keys <= HoldOutcome(r, now).poisoned.Keys
  {
    var note := FailureNote(Some(AttemptInterrupted), false);
    if !OwesOutcome(r) && InterruptedPhase(r.phase) {
      if r.attempt.kind == Rollback { EnterKeeps(r.(lastFailure := note), Failed, now); }
      else { FailureKeeps(r, note, DEFAULT_MAX_ATTEMPTS, now); }
    }
  }

  lemma RefusalKeeps(r: Record, target: string, leaving: string, now: int)
    requires WellFormed(r) && !Blank(target)
    ensures WellFormed(RecordRollback(r, target, leaving, now))
    ensures r.poisoned.Keys <= RecordRollback(r, target, leaving, now).poisoned.Keys
    ensures RecordRollback(r, target, leaving, now).phase == Verified
    ensures RecordRollback(r, target, leaving, now).attempt == Attempt(target, leaving, Some(now), None, Rollback)
  {
    BeginKeeps(r, target, leaving, now);
    TrimIdempotent(leaving);
  }

  // ---- what a trace must look like ----

  /** The journal says that this launch, at this time, is in flight. */
  predicate InFlight(r: Record, kind: Kind, version: string, now: int) {
    r.phase == LaunchPhase(kind) && r.attempt.inFlightSince == Some(now) && r.attempt.target == version
  }

  /** Effect i of a pass at `now` over the journal `disk`: a saved journal is well formed and has dropped no
      refusal; steering is taken down, and an installer launched, only directly after a successful save of the
      phase that names it, stamped with this pass's time; nothing but journals in flight is saved after a
      launch. */
  ghost predicate EffectSound(disk: Record, now: int, trace: seq<Effect>, i: nat)
    requires i < |trace|
  {
    match trace[i]
    case Saved(r, _) => WellFormed(r) && disk.poisoned.Keys <= r.poisoned.Keys
    case DisarmCall(_) => i > 0 && trace[i - 1].Saved? && trace[i - 1].result == Written && trace[i - 1].rec.phase == Disarmed
    case RearmCall(_) => true
    case Launch(kind, v, ok) =>
      && i > 0 && trace[i - 1].Saved? && trace[i - 1].result == Written && InFlight(trace[i - 1].rec, kind, v, now)
      && !(InterruptedPhase(disk.phase) && InstallYoung(disk, now))
      && (ok ==> forall j :: i < j < |trace| ==> trace[j].Saved? && InFlight(trace[j].rec, kind, v, now))
  }

  ghost predicate Sound(disk: Record, now: int, trace: seq<Effect>) {
    forall i :: 0 <= i < |trace| ==> EffectSound(disk, now, trace, i)
  }

  /** No installer was started. */
  ghost predicate NoLaunch(trace: seq<Effect>) {
    forall i :: 0 <= i < |trace| ==> !(trace[i].Launch? && trace[i].ok)
  }

  ghost predicate LaunchesOnly(trace: seq<Effect>, kind: Kind, version: string) {
    forall i :: 0 <= i < |trace| && trace[i].Launch? && trace[i].ok ==> trace[i] == Launch(kind, version, true)
  }

  lemma SoundAppend(disk: Record, now: int, a: seq<Effect>, b: seq<Effect>)
    requires Sound(disk, now, a) && NoLaunch(a) && Sound(disk, now, b)
    ensures Sound(disk, now, a + b)
  {
    var t := a + b;
    forall i | 0 <= i < |t| ensures EffectSound(disk, now, t, i) {
      if i < |a| {
        assert EffectSound(disk, now, a, i) && t[i] == a[i];
        assert i > 0 ==> t[i - 1] == a[i - 1];
      } else {
        assert EffectSound(disk, now, b, i - |a|) && t[i] == b[i - |a|];
        assert i > |a| ==> t[i - 1] == b[i - 1 - |a|];
        forall j | i < j < |t| ensures t[j] == b[j - |a|] {}
      }
    }
  }

  lemma SoundThen(disk: Record, now: int, a: seq<Effect>, r: Record, result: SaveResult)
    requires Sound(disk, now, a) && NoLaunch(a)
    requires WellFormed(r) && disk.poisoned.Keys <= r.poisoned.Keys
    ensures Sound(disk, now, a + [Saved(r, result)]) && NoLaunch(a + [Saved(r, result)])
  {
    assert EffectSound(disk, now, [Saved(r, result)], 0);
    SoundAppend(disk, now, a, [Saved(r, result)]);
  }

  lemma SoundThenRearm(disk: Record, now: int, a: seq<Effect>, ok: bool)
    requires Sound(disk, now, a) && NoLaunch(a)
    ensures Sound(disk, now, a + [RearmCall(ok)]) && NoLaunch(a + [RearmCall(ok)])
  {
    assert EffectSound(disk, now, [RearmCall(ok)], 0);
    SoundAppend(disk, now, a, [RearmCall(ok)]);
  }

  lemma SoundThenDisarm(disk: Record, now: int, a: seq<Effect>, r: Record, ok: bool)
    requires Sound(disk, now, a) && NoLaunch(a)
    requires WellFormed(r) && disk.poisoned.Keys <= r.poisoned.Keys && r.phase == Disarmed
    ensures Sound(disk, now, a + [Saved(r, Written), DisarmCall(ok)]) && NoLaunch(a + [Saved(r, Written), DisarmCall(ok)])
  {
    var t := [Saved(r, Written), DisarmCall(ok)];
    assert EffectSound(disk, now, t, 0) && EffectSound(disk, now, t, 1);
    SoundAppend(disk, now, a, t);
  }

  lemma SoundThenLaunch(disk: Record, now: int, a: seq<Effect>, r: Record, kind: Kind, version: string, ok: bool)
    requires Sound(disk, now, a) && NoLaunch(a)
    requires WellFormed(r) && disk.poisoned.Keys <= r.poisoned.Keys && InFlight(r, kind, version, now)
    requires !(InterruptedPhase(disk.phase) && InstallYoung(disk, now))
    ensures Sound(disk, now, a + [Saved(r, Written), Launch(kind, version, ok)])
    ensures !ok ==> NoLaunch(a + [Saved(r, Written), Launch(kind, version, ok)])
    ensures LaunchesOnly(a + [Saved(r, Written), Launch(kind, version, ok)], kind, version)
  {
    var t := [Saved(r, Written), Launch(kind, version, ok)];
    assert EffectSound(disk, now, t, 0) && EffectSound(disk, now, t, 1);
    SoundAppend(disk, now, a, t);
  }

  // ---- Run and Rollback are sound ----

  /** A pass that may go on: well formed, refusals kept, no machine change started. */
  ghost predicate PassSound(disk: Record, now: int, p: Pass) {
    && WellFormed(p.rec) && disk.poisoned.Keys <= p.rec.poisoned.Keys
    && p.rec.phase != Idle && p.rec.attempt.inFlightSince.None?
    && Sound(disk, now, p.trace) && OnlySaves(p.trace)
  }

  lemma SaveSound(disk: Record, now: int, p: Pass, a: Answers)
    requires PassSound(disk, now, p)
    ensures PassSound(disk, now, Save(p, a))
  {
    SoundThen(disk, now, p.trace, p.rec, SaveAt(a, p.saves));
  }

  /** A pass that ended before touching the machine. */
  ghost predicate StopSound(disk: Record, now: int, end: End) {
    && WellFormed(end.rec) && disk.poisoned.Keys <= end.rec.poisoned.Keys
    && Sound(disk, now, end.trace) && OnlySaves(end.trace)
  }

  lemma GateSound(disk: Record, now: int, p: Pass, cfg: Config, a: Answers)
    requires PassSound(disk, now, p)
    ensures match PassGate(p, cfg, a, now)
      case Ready(q) => PassSound(disk, now, q) && q.rec.phase == Snapshotted
                       && q.rec.attempt == p.rec.attempt
      case Stopped(end) => StopSound(disk, now, end)
  {
    match Gate.EvaluateGate(cfg.window, GateConditions(p.rec, cfg, a))
    case Wait(reason) => SaveSound(disk, now, p.(rec := RecordWait(p.rec, GateWait(reason))), a);
    case Proceed(_) =>
      EnterKeeps(p.rec, Snapshotted, now);
      SaveSound(disk, now, p.(rec := Enter(p.rec, Snapshotted, now)), a);
  }

  lemma ParseableIsNotBlank(s: string)
    ensures ParseVersion(s).Some? ==> !Blank(s)
  {
  }

  lemma AdmitSound(disk: Record, m: Manifest, running: string, cfg: Config, a: Answers, now: int)
    requires WellFormed(disk) && !InterruptedPhase(disk.phase) && !Blank(m.version)
    ensures match Admit(disk, m, running, cfg, a, now)
      case Ready(q) => PassSound(disk, now, q) && q.rec.attempt.target == m.version
                       && q.rec.attempt.kind == if NeedsBegin(disk, m) then Update else disk.attempt.kind
      case Stopped(end) => StopSound(disk, now, end)
  {
    BeginKeeps(disk, m.version, running, now);
    var begun := Begin(disk, m.version, running, now);
    var moved := disk.(attempt := disk.attempt.(from := running));
    if NeedsBegin(disk, m) {
      SaveSound(disk, now, Start(begun), a);
      if Save(Start(begun), a).stored { GateSound(disk, now, Save(Start(begun), a), cfg, a); }
    } else if running != "" && disk.attempt.from != running {
      SaveSound(disk, now, Start(moved), a);
      if Save(Start(moved), a).stored { GateSound(disk, now, Save(Start(moved), a), cfg, a); }
    } else {
      GateSound(disk, now, Start(disk), cfg, a);
    }
  }

  /** The last stretch may begin: a recorded, well-formed attempt at `version` that has changed nothing yet. */
  ghost predicate MayHandOver(disk: Record, now: int, r: Record, version: string) {
    && WellFormed(r) && disk.poisoned.Keys <= r.poisoned.Keys && r.phase != Idle
    && r.attempt.target == version
    && !(InterruptedPhase(disk.phase) && InstallYoung(disk, now))
  }

  lemma FailuresKeep(x: Record, kind: Kind, lost: bool, maxAttempts: int, now: int)
    requires WellFormed(x) && x.phase != Idle
    ensures WellFormed(AfterLaunchFailure(x, kind, lost, maxAttempts, now))
    ensures WellFormed(AfterDisarmFailure(x, kind, maxAttempts, now))
    ensures x.poisoned.Keys <= AfterLaunchFailure(x, kind, lost, maxAttempts, now).poisoned.Keys
    ensures x.poisoned.Keys <= AfterDisarmFailure(x, kind, maxAttempts, now).poisoned.Keys
  {
    FailureKeeps(x, FailureNote(Some(ExecuteFailed), lost), maxAttempts, now);
    FailureKeeps(x, FailureNote(Some(DisarmFailed), false), maxAttempts, now);
    EnterKeeps(x, Failed, now);
    EnterKeeps(x.(lastFailure := FailureNote(Some(RollbackLaunchFailed), lost)), Failed, now);
  }

  /** How a stretch of a pass leaves things: sound effects, a well-formed journal, and an installer only if the
      journal in memory says it is in flight. */
  ghost predicate EndSound(disk: Record, now: int, end: End, kind: Kind, version: string) {
    && WellFormed(end.rec) && disk.poisoned.Keys <= end.rec.poisoned.Keys && Sound(disk, now, end.trace)
    && (NoLaunch(end.trace) || (InFlight(end.rec, kind, version, now) && LaunchesOnly(end.trace, kind, version)))
  }

  /** The exits after the launch phase could not be recorded: the deferred restore. */
  lemma UnrecordedSound(disk: Record, now: int, soFar: seq<Effect>, x: Record, result: SaveResult, rearmOk: bool, last: SaveResult)
    requires WellFormed(x) && disk.poisoned.Keys <= x.poisoned.Keys
    requires Sound(disk, now, soFar) && NoLaunch(soFar)
    ensures var t := soFar + [Saved(x, result)]; Sound(disk, now, t) && NoLaunch(t)
    ensures var t := soFar + [Saved(x, result), RearmCall(rearmOk)]; Sound(disk, now, t) && NoLaunch(t)
    ensures var noted := x.(lastFailure := x.lastFailure.(steeringUnconfirmed := true));
      var t := soFar + [Saved(x, result), RearmCall(rearmOk), Saved(noted, last)]; Sound(disk, now, t) && NoLaunch(t)
  {
    var t := soFar + [Saved(x, result)];
    SoundThen(disk, now, soFar, x, result);
    SoundThenRearm(disk, now, t, rearmOk);
    assert t + [RearmCall(rearmOk)] == soFar + [Saved(x, result), RearmCall(rearmOk)];
    var noted := x.(lastFailure := x.lastFailure.(steeringUnconfirmed := true));
    SoundThen(disk, now, t + [RearmCall(rearmOk)], noted, last);
    assert t + [RearmCall(rearmOk)] + [Saved(noted, last)] == soFar + [Saved(x, result), RearmCall(rearmOk), Saved(noted, last)];
  }

  /** The exits after a launch that failed. */
  lemma FailedLaunchSound(disk: Record, now: int, soFar: seq<Effect>, x: Record, kind: Kind, version: string,
                          rearmOk: bool, f: Record, last: SaveResult)
    requires WellFormed(x) && disk.poisoned.Keys <= x.poisoned.Keys && InFlight(x, kind, version, now)
    requires WellFormed(f) && disk.poisoned.Keys <= f.poisoned.Keys
    requires Sound(disk, now, soFar) && NoLaunch(soFar)
    requires !(InterruptedPhase(disk.phase) && InstallYoung(disk, now))
    ensures var tried := [Saved(x, Written), Launch(kind, version, false)];
      && Sound(disk, now, soFar + (tried + [RearmCall(rearmOk), Saved(f, last)]))
      && NoLaunch(soFar + (tried + [RearmCall(rearmOk), Saved(f, last)]))
      && Sound(disk, now, soFar + (tried + [Saved(f, last)])) && NoLaunch(soFar + (tried + [Saved(f, last)]))
  {
    var tried := [Saved(x, Written), Launch(kind, version, false)];
    var t := soFar + tried;
    SoundThenLaunch(disk, now, soFar, x, kind, version, false);
    SoundThenRearm(disk, now, t, rearmOk);
    SoundThen(disk, now, t + [RearmCall(rearmOk)], f, last);
    assert t + [RearmCall(rearmOk)] + [Saved(f, last)] == soFar + (tried + [RearmCall(rearmOk), Saved(f, last)]);
    SoundThen(disk, now, t, f, last);
    assert t + [Saved(f, last)] == soFar + (tried + [Saved(f, last)]);
  }

  lemma LaunchStageSound(disk: Record, r: Record, saves: nat, soFar: seq<Effect>, kind: Kind, version: string,
                         maxAttempts: int, a: Answers, now: int)
    requires MayHandOver(disk, now, r, version)
    requires r.attempt.inFlightSince.None? || r.attempt.inFlightSince == Some(now)
    requires Sound(disk, now, soFar) && NoLaunch(soFar)
    ensures EndSound(disk, now, LaunchStage(r, saves, soFar, kind, version, maxAttempts, a, now), kind, version)
  {
    var x := Enter(r, LaunchPhase(kind), now);
    EnterKeeps(r, LaunchPhase(kind), now);
    assert InFlight(x, kind, version, now) && x.poisoned == r.poisoned;
    var lost := soFar != [] && !a.rearmOk;
    FailuresKeep(x, kind, lost, maxAttempts, now);
    var result, last := SaveAt(a, saves), SaveAt(a, saves + 1);
    if result != Written {
      UnrecordedSound(disk, now, soFar, x, result, a.rearmOk, last);
    } else if a.launchOk {
      SoundThenLaunch(disk, now, soFar, x, kind, version, true);
    } else {
      FailedLaunchSound(disk, now, soFar, x, kind, version, a.rearmOk,
                        AfterLaunchFailure(x, kind, lost, maxAttempts, now), last);
    }
  }

  lemma DisarmFailureSound(disk: Record, now: int, d: Record, f: Record, last: SaveResult)
    requires WellFormed(d) && disk.poisoned.Keys <= d.poisoned.Keys && d.phase == Disarmed
    requires WellFormed(f) && disk.poisoned.Keys <= f.poisoned.Keys
    ensures var t := [Saved(d, Written), DisarmCall(false), Saved(f, last)]; Sound(disk, now, t) && NoLaunch(t)
  {
    SoundThenDisarm(disk, now, [], d, false);
    var t := [Saved(d, Written), DisarmCall(false)];
    assert [] + t == t;
    SoundThen(disk, now, t, f, last);
    assert t + [Saved(f, last)] == [Saved(d, Written), DisarmCall(false), Saved(f, last)];
  }

  lemma HandOverSound(disk: Record, r: Record, saves: nat, kind: Kind, version: string, maxAttempts: int, a: Answers, now: int)
    requires MayHandOver(disk, now, r, version) && r.attempt.inFlightSince.None?
    ensures EndSound(disk, now, HandOver(r, saves, kind, version, maxAttempts, a, now), kind, version)
  {
    var d := Enter(r, Disarmed, now);
    EnterKeeps(r, Disarmed, now);
    if !a.mayDisarm {
      LaunchStageSound(disk, r, saves, [], kind, version, maxAttempts, a, now);
    } else if SaveAt(a, saves) != Written {
      SoundThen(disk, now, [], d, SaveAt(a, saves));
      assert [] + [Saved(d, SaveAt(a, saves))] == [Saved(d, SaveAt(a, saves))];
    } else if a.disarmOk {
      var t := [Saved(d, Written), DisarmCall(true)];
      SoundThenDisarm(disk, now, [], d, true);
      assert [] + t == t;
      LaunchStageSound(disk, d, saves + 1, t, kind, version, maxAttempts, a, now);
    } else {
      FailuresKeep(d, kind, false, maxAttempts, now);
      DisarmFailureSound(disk, now, d, AfterDisarmFailure(d, kind, maxAttempts, now), SaveAt(a, saves + 1));
    }
  }

  lemma ContinueSound(disk: Record, now: int, p: Pass, kind: Kind, version: string, maxAttempts: int, a: Answers)
    requires PassSound(disk, now, p) && p.rec.attempt.target == version
    requires !(InterruptedPhase(disk.phase) && InstallYoung(disk, now))
    ensures EndSound(disk, now, Continue(p, kind, version, maxAttempts, a, now), kind, version)
  {
    HandOverSound(disk, p.rec, p.saves, kind, version, maxAttempts, a, now);
    var tail := HandOver(p.rec, p.saves, kind, version, maxAttempts, a, now).trace;
    SoundAppend(disk, now, p.trace, tail);
  }

  lemma InterruptedSound(disk: Record, m: Manifest, cfg: Config, a: Answers, now: int)
    requires WellFormed(disk) && InterruptedPhase(disk.phase)
    ensures Prepare(disk, m, cfg, a, now).Stopped? && StopSound(disk, now, Prepare(disk, m, cfg, a, now).end)
  {
    var f := Enter(disk, Failed, now);
    EnterKeeps(disk, Failed, now);
    SoundThen(disk, now, [], f, SaveAt(a, 0));
    assert [] + [Saved(f, SaveAt(a, 0))] == [Saved(f, SaveAt(a, 0))];
  }

  lemma PrepareSound(disk: Record, m: Manifest, cfg: Config, a: Answers, now: int)
    requires WellFormed(disk)
    ensures match Prepare(disk, m, cfg, a, now)
      case Ready(q) => PassSound(disk, now, q) && q.rec.attempt.target == m.version && !InterruptedPhase(disk.phase)
                       && !IsPoisoned(disk, m.version)
                       && q.rec.attempt.kind == if NeedsBegin(disk, m) then Update else disk.attempt.kind
      case Stopped(end) => StopSound(disk, now, end)
  {
    if InterruptedPhase(disk.phase) {
      InterruptedSound(disk, m, cfg, a, now);
    } else if a.running.Known? && Applicable(m, a.running.version, cfg.platform, cfg.arch).None? {
      ParseableIsNotBlank(m.version);
      AdmitSound(disk, m, a.running.version, cfg, a, now);
    }
  }

  lemma RunSound(disk: Record, m: Manifest, cfg: Config, a: Answers, now: int)
    requires WellFormed(disk)
    ensures EndSound(disk, now, RunPass(disk, m, cfg, a, now), Update, m.version)
    ensures IsPoisoned(disk, m.version) ==> NoLaunch(RunPass(disk, m, cfg, a, now).trace)
  {
    PrepareSound(disk, m, cfg, a, now);
    if !cfg.dryRun {
      match Prepare(disk, m, cfg, a, now)
      case Ready(p) => ContinueSound(disk, now, p, Update, m.version, cfg.maxAttempts, a);
      case Stopped(_) =>
    }
  }

  lemma RecordedSound(disk: Record, now: int, begun: Record, kind: Kind, version: string, maxAttempts: int, a: Answers)
    requires MayHandOver(disk, now, begun, version) && begun.attempt.inFlightSince.None?
    ensures var p := Save(Start(begun), a);
      EndSound(disk, now, if p.stored then Continue(p, kind, version, maxAttempts, a, now) else StopUnrecorded(p), kind, version)
  {
    var p := Save(Start(begun), a);
    SaveSound(disk, now, Start(begun), a);
    if p.stored {
      ContinueSound(disk, now, p, kind, version, maxAttempts, a);
    }
  }

  lemma PerformRollbackSound(disk: Record, held: Record, target: string, leaving: string, a: Answers, now: int)
    requires WellFormed(held) && disk.poisoned.Keys <= held.poisoned.Keys && !Blank(target)
    requires !(InterruptedPhase(disk.phase) && InstallYoung(disk, now))
    ensures EndSound(disk, now, PerformRollback(held, target, leaving, a, now), Rollback, target)
  {
    RefusalKeeps(held, target, leaving, now);
    RecordedSound(disk, now, RecordRollback(held, target, leaving, now), Rollback, target, DEFAULT_MAX_ATTEMPTS, a);
  }

  lemma RestoreTargetNotBlank(r: Record, req: Request)
    ensures RestoreTarget(r, req).Some? ==> !Blank(RestoreTarget(r, req).value)
  {
    TrimIdempotent(req.toVersion);
    TrimIdempotent(r.attempt.from);
  }

  /** The version a rollback pass restores, where it gets that far. */
  function Restored(held: Record, req: Request): string {
    match RestoreTarget(held, req)
    case Some(target) => target
    case None => ""
  }

  lemma DecidedSound(disk: Record, held: Record, req: Request, cfg: Config, a: Answers, now: int)
    requires WellFormed(disk) && WellFormed(held) && disk.poisoned.Keys <= held.poisoned.Keys
    requires !(InterruptedPhase(disk.phase) && InstallYoung(disk, now))
    ensures EndSound(disk, now, RollbackDecided(disk, held, req, cfg, a, now), Rollback, Restored(held, req))
  {
    RestoreTargetNotBlank(held, req);
    if RestoreTarget(held, req).Some? {
      PerformRollbackSound(disk, held, RestoreTarget(held, req).value, Leaving(req, a), a, now);
    }
  }

  lemma RollbackSound(disk: Record, req: Request, cfg: Config, a: Answers, now: int)
    requires WellFormed(disk)
    ensures EndSound(disk, now, RollbackPass(disk, req, cfg, a, now), Rollback, Restored(HoldOutcome(disk, now), req))
  {
    HoldKeeps(disk, now);
    if !(InterruptedPhase(disk.phase) && InstallYoung(disk, now)) {
      DecidedSound(disk, HoldOutcome(disk, now), req, cfg, a, now);
    }
  }
}
