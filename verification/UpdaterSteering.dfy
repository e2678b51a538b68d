/** Steering over one pass: it comes back exactly when it must, its loss is on the disk at every crash point, and
    the caller hears of it; a rehearsal touches nothing and predicts the real pass. */
module UpdaterSteering {
  import opened Text
  import opened Versions
  import opened Journals
  import opened Updater
  import opened UpdaterPasses
  import opened UpdaterRuns
  import Gate

  /** What a trace has done to steering: whether it is down and not restored, how often a restore was tried,
      whether it was ever taken down, whether an installer was started, and whether every journal saved while
      steering was down says so. */
  datatype Steering = Steering(down: bool, rearms: nat, disarmed: bool, launched: bool, noted: bool)

  const UNTOUCHED: Steering := Steering(false, 0, false, false, true)

  predicate SaysSteeringDown(r: Record) {
    NeedsNetworkRecovery(r) || r.lastFailure.steeringUnconfirmed
  }

  function Track(s: Steering, e: Effect): Steering {
    match e
    case Saved(r, _) => s.(noted := s.noted && (s.down ==> SaysSteeringDown(r)))
    case DisarmCall(ok) => if ok then s.(down := true, disarmed := true) else s
    case RearmCall(ok) => s.(down := s.down && !ok, rearms := s.rearms + 1)
    case Launch(_, _, ok) => s.(launched := s.launched || ok)
  }

  function TrackAll(s: Steering, t: seq<Effect>): Steering {
    if t == [] then s else Track(TrackAll(s, t[..|t| - 1]), t[|t| - 1])
  }

  lemma TrackOne(s: Steering, t: seq<Effect>, e: Effect)
    ensures TrackAll(s, t + [e]) == Track(TrackAll(s, t), e)
  {
    assert (t + [e])[..|t|] == t;
  }

  lemma {:induction false} TrackConcat(s: Steering, t: seq<Effect>, u: seq<Effect>)
    ensures TrackAll(s, t + u) == TrackAll(TrackAll(s, t), u)
  {
    if u == [] {
      assert t + u == t;
    } else {
      var front, e := u[..|u| - 1], u[|u| - 1];
      TrackConcat(s, t, front);
      assert t + u == (t + front) + [e];
      TrackOne(s, t + front, e);
    }
  }

  /** Steering was taken down and nothing was launched: exactly one attempt to restore it, otherwise none; and no
      journal saved meanwhile hides it. */
  predicate Steered(t: seq<Effect>) {
    var s := TrackAll(UNTOUCHED, t);
    s.rearms == (if s.disarmed && !s.launched then 1 else 0) && s.noted
  }

  /** What the caller of a pass is told about steering. */
  predicate Told(end: End) { end.out.steeringAlarm || SteeringFault in end.faults }

  lemma Track2(s: Steering, a: Effect, b: Effect)
    ensures TrackAll(s, [a, b]) == Track(Track(s, a), b)
  {
    TrackOne(s, [], a);
    TrackOne(s, [a], b);
    assert [] + [a] == [a] && [a] + [b] == [a, b];
  }

  lemma Track3(s: Steering, a: Effect, b: Effect, c: Effect)
    ensures TrackAll(s, [a, b, c]) == Track(Track(Track(s, a), b), c)
  {
    Track2(s, a, b);
    TrackOne(s, [a, b], c);
    assert [a, b] + [c] == [a, b, c];
  }

  lemma Track4(s: Steering, a: Effect, b: Effect, c: Effect, d: Effect)
    ensures TrackAll(s, [a, b, c, d]) == Track(Track(Track(Track(s, a), b), c), d)
  {
    Track3(s, a, b, c);
    TrackOne(s, [a, b, c], d);
    assert [a, b, c] + [d] == [a, b, c, d];
  }

  /** Where the last stretch stands before it records the launch: steering up, or down after a recorded disarm. */
  predicate BeforeLaunch(soFar: seq<Effect>) {
    var s := TrackAll(UNTOUCHED, soFar);
    s.noted && s.rearms == 0 && !s.launched && s.down == s.disarmed == (soFar != [])
  }

  lemma UnrecordedTracked(soFar: seq<Effect>, x: Record, result: SaveResult, y: Record, last: SaveResult)
    requires BeforeLaunch(soFar) && SaysSteeringDown(x) && SaysSteeringDown(y)
    ensures soFar == [] ==> Steered(soFar + [Saved(x, result)])
    ensures soFar != [] ==> Steered(soFar + [Saved(x, result), RearmCall(true)])
    ensures soFar != [] ==> Steered(soFar + [Saved(x, result), RearmCall(false), Saved(y, last)])
  {
    var s, saved := TrackAll(UNTOUCHED, soFar), Saved(x, result);
    TrackOne(UNTOUCHED, soFar, saved);
    TrackConcat(UNTOUCHED, soFar, [saved, RearmCall(true)]);
    Track2(s, saved, RearmCall(true));
    TrackConcat(UNTOUCHED, soFar, [saved, RearmCall(false), Saved(y, last)]);
    Track3(s, saved, RearmCall(false), Saved(y, last));
  }

  lemma LaunchedTracked(soFar: seq<Effect>, x: Record, kind: Kind, version: string)
    requires BeforeLaunch(soFar) && SaysSteeringDown(x)
    ensures Steered(soFar + [Saved(x, Written), Launch(kind, version, true)])
  {
    TrackConcat(UNTOUCHED, soFar, [Saved(x, Written), Launch(kind, version, true)]);
    Track2(TrackAll(UNTOUCHED, soFar), Saved(x, Written), Launch(kind, version, true));
  }

  lemma FailedTracked(soFar: seq<Effect>, x: Record, kind: Kind, version: string, rearmOk: bool, f: Record, last: SaveResult)
    requires BeforeLaunch(soFar) && SaysSteeringDown(x) && (soFar != [] && !rearmOk ==> SaysSteeringDown(f))
    ensures soFar == [] ==> Steered(soFar + ([Saved(x, Written), Launch(kind, version, false)] + [Saved(f, last)]))
    ensures soFar != [] ==>
      Steered(soFar + ([Saved(x, Written), Launch(kind, version, false)] + [RearmCall(rearmOk), Saved(f, last)]))
  {
    var s, saved, l := TrackAll(UNTOUCHED, soFar), Saved(x, Written), Launch(kind, version, false);
    assert [saved, l] + [RearmCall(rearmOk), Saved(f, last)] == [saved, l, RearmCall(rearmOk), Saved(f, last)];
    assert [saved, l] + [Saved(f, last)] == [saved, l, Saved(f, last)];
    TrackConcat(UNTOUCHED, soFar, [saved, l, RearmCall(rearmOk), Saved(f, last)]);
    Track4(s, saved, l, RearmCall(rearmOk), Saved(f, last));
    TrackConcat(UNTOUCHED, soFar, [saved, l, Saved(f, last)]);
    Track3(s, saved, l, Saved(f, last));
  }

  lemma LaunchStageTracked(r: Record, saves: nat, soFar: seq<Effect>, kind: Kind, version: string, maxAttempts: int,
                           a: Answers, now: int)
    requires BeforeLaunch(soFar)
    ensures Steered(LaunchStage(r, saves, soFar, kind, version, maxAttempts, a, now).trace)
  {
    var x := Enter(r, LaunchPhase(kind), now);
    var lost := soFar != [] && !a.rearmOk;
    var f := AfterLaunchFailure(x, kind, lost, maxAttempts, now);
    var noted := x.(lastFailure := x.lastFailure.(steeringUnconfirmed := true));
    assert SaysSteeringDown(x) && (lost ==> SaysSteeringDown(f));
    UnrecordedTracked(soFar, x, SaveAt(a, saves), noted, SaveAt(a, saves + 1));
    LaunchedTracked(soFar, x, kind, version);
    FailedTracked(soFar, x, kind, version, a.rearmOk, f, SaveAt(a, saves + 1));
  }

  lemma HandOverSteered(r: Record, saves: nat, kind: Kind, version: string, maxAttempts: int, a: Answers, now: int)
    ensures Steered(HandOver(r, saves, kind, version, maxAttempts, a, now).trace)
  {
    var d := Enter(r, Disarmed, now);
    var save := Saved(d, SaveAt(a, saves));
    if !a.mayDisarm {
      LaunchStageTracked(r, saves, [], kind, version, maxAttempts, a, now);
    } else if SaveAt(a, saves) != Written {
      TrackOne(UNTOUCHED, [], save);
      assert [] + [save] == [save];
    } else if a.disarmOk {
      Track2(UNTOUCHED, save, DisarmCall(true));
      LaunchStageTracked(d, saves + 1, [save, DisarmCall(true)], kind, version, maxAttempts, a, now);
    } else {
      Track3(UNTOUCHED, save, DisarmCall(false),
             Saved(AfterDisarmFailure(d, kind, maxAttempts, now), SaveAt(a, saves + 1)));
    }
  }

  lemma {:induction false} SavesTouchNothing(front: seq<Effect>)
    requires OnlySaves(front)
    ensures TrackAll(UNTOUCHED, front) == UNTOUCHED
  {
    if front != [] { SavesTouchNothing(front[..|front| - 1]); }
  }

  lemma SavesBeforeSteered(front: seq<Effect>, t: seq<Effect>)
    requires OnlySaves(front) && Steered(t)
    ensures Steered(front + t)
  {
    SavesTouchNothing(front);
    TrackConcat(UNTOUCHED, front, t);
  }

  /** Whatever the platform and the disk answer: a pass that took steering down and launched nothing has tried to
      restore it exactly once, and no other pass has touched it. */
  lemma RunSteered(disk: Record, m: Manifest, cfg: Config, a: Answers, now: int)
    requires WellFormed(disk)
    ensures Steered(RunPass(disk, m, cfg, a, now).trace)
  {
    PrepareSound(disk, m, cfg, a, now);
    if cfg.dryRun || Prepare(disk, m, cfg, a, now).Stopped? {
      SavesTouchNothing(RunPass(disk, m, cfg, a, now).trace);
    } else {
      var p := Prepare(disk, m, cfg, a, now).pass;
      HandOverSteered(p.rec, p.saves, Update, m.version, cfg.maxAttempts, a, now);
      SavesBeforeSteered(p.trace, HandOver(p.rec, p.saves, Update, m.version, cfg.maxAttempts, a, now).trace);
    }
  }

  lemma PerformRollbackSteered(held: Record, target: string, leaving: string, a: Answers, now: int)
    ensures Steered(PerformRollback(held, target, leaving, a, now).trace)
  {
    var p := Save(Start(RecordRollback(held, target, leaving, now)), a);
    if p.stored {
      HandOverSteered(p.rec, p.saves, Rollback, target, DEFAULT_MAX_ATTEMPTS, a, now);
      SavesBeforeSteered(p.trace, HandOver(p.rec, p.saves, Rollback, target, DEFAULT_MAX_ATTEMPTS, a, now).trace);
    } else {
      SavesTouchNothing(p.trace);
    }
  }

  lemma RollbackSteered(disk: Record, req: Request, cfg: Config, a: Answers, now: int)
    ensures Steered(RollbackPass(disk, req, cfg, a, now).trace)
  {
    var held, t := HoldOutcome(disk, now), RollbackPass(disk, req, cfg, a, now).trace;
    if RestoreTarget(held, req).Some? {
      PerformRollbackSteered(held, RestoreTarget(held, req).value, Leaving(req, a), a, now);
    }
    if t == [] {
      SavesTouchNothing(t);
    }
  }

  lemma {:induction false} DownIsOnDisk(disk: Record, now: int, t: seq<Effect>)
    requires Sound(disk, now, t) && TrackAll(UNTOUCHED, t).noted
    ensures TrackAll(UNTOUCHED, t).down ==> SaysSteeringDown(DiskAfter(disk, t))
  {
    if t != [] {
      var n := |t| - 1;
      PrefixSound(disk, now, t, n);
      DownIsOnDisk(disk, now, t[..n]);
      assert EffectSound(disk, now, t, n);
      if t[n].DisarmCall? {
        assert t[..n][n - 1] == t[n - 1];
      }
    }
  }

  lemma {:induction false} NotedThroughout(t: seq<Effect>, k: nat)
    requires TrackAll(UNTOUCHED, t).noted && k <= |t|
    ensures TrackAll(UNTOUCHED, t[..k]).noted
  {
    if k == |t| {
      assert t[..k] == t;
    } else {
      NotedThroughout(t[..|t| - 1], k);
      assert t[..|t| - 1][..k] == t[..k];
    }
  }

  /** At every point where a pass may die with steering down and not restored, the journal the next pass reads
      says so: its phase is one whose network must be checked first, or its failure names the steering. */
  lemma CrashLeavesRecord(disk: Record, now: int, trace: seq<Effect>, k: nat)
    requires Sound(disk, now, trace) && Steered(trace) && k <= |trace|
    requires TrackAll(UNTOUCHED, trace[..k]).down
    ensures SaysSteeringDown(DiskAfter(disk, trace[..k]))
  {
    PrefixSound(disk, now, trace, k);
    NotedThroughout(trace, k);
    DownIsOnDisk(disk, now, trace[..k]);
  }

  /** So it is for every Run and every Rollback, wherever it dies. */
  lemma RunCrashLeavesRecord(disk: Record, m: Manifest, cfg: Config, a: Answers, now: int, k: nat)
    requires WellFormed(disk) && k <= |RunPass(disk, m, cfg, a, now).trace|
    requires TrackAll(UNTOUCHED, RunPass(disk, m, cfg, a, now).trace[..k]).down
    ensures SaysSteeringDown(DiskAfter(disk, RunPass(disk, m, cfg, a, now).trace[..k]))
  {
    RunSound(disk, m, cfg, a, now);
    RunSteered(disk, m, cfg, a, now);
    CrashLeavesRecord(disk, now, RunPass(disk, m, cfg, a, now).trace, k);
  }

  lemma RollbackCrashLeavesRecord(disk: Record, req: Request, cfg: Config, a: Answers, now: int, k: nat)
    requires WellFormed(disk) && k <= |RollbackPass(disk, req, cfg, a, now).trace|
    requires TrackAll(UNTOUCHED, RollbackPass(disk, req, cfg, a, now).trace[..k]).down
    ensures SaysSteeringDown(DiskAfter(disk, RollbackPass(disk, req, cfg, a, now).trace[..k]))
  {
    RollbackSound(disk, req, cfg, a, now);
    RollbackSteered(disk, req, cfg, a, now);
    CrashLeavesRecord(disk, now, RollbackPass(disk, req, cfg, a, now).trace, k);
  }

  // ---- the caller is told ----

  /** The one exit that names only the save: a rollback whose launch, restore and record all fail. */
  predicate SilentRollback(kind: Kind, saves: nat, a: Answers) {
    kind == Rollback && SaveAt(a, saves + 1) == Written && !a.launchOk && SaveAt(a, saves + 2) != Written
  }

  /** A failed restore is told to the caller exactly when it happened, but for that exit. */
  lemma FailedRestoreIsToldIff(r: Record, saves: nat, kind: Kind, version: string, maxAttempts: int, a: Answers, now: int)
    ensures var end := HandOver(r, saves, kind, version, maxAttempts, a, now);
      Told(end) <==> RearmCall(false) in end.trace && !SilentRollback(kind, saves, a)
  {
    var d := Enter(r, Disarmed, now);
    var end := HandOver(r, saves, kind, version, maxAttempts, a, now);
    if a.mayDisarm && SaveAt(a, saves) == Written && a.disarmOk {
      var soFar := [Saved(d, Written), DisarmCall(true)];
      var x, result := Enter(d, LaunchPhase(kind), now), SaveAt(a, saves + 1);
      if result != Written {
        assert end.trace[3] == RearmCall(a.rearmOk);
      } else if !a.launchOk {
        assert end.trace[4] == RearmCall(a.rearmOk);
      }
    }
  }

  lemma RunTellsCaller(disk: Record, m: Manifest, cfg: Config, a: Answers, now: int)
    requires WellFormed(disk)
    ensures Told(RunPass(disk, m, cfg, a, now)) <==> RearmCall(false) in RunPass(disk, m, cfg, a, now).trace
  {
    PrepareSound(disk, m, cfg, a, now);
    if cfg.dryRun {
      RehearsalTellsNothing(disk, m, cfg, a, now);
      return;
    }
    match Prepare(disk, m, cfg, a, now)
    case Stopped(end) => assert Harmless(end);
    case Ready(p) => FailedRestoreIsToldIff(p.rec, p.saves, Update, m.version, cfg.maxAttempts, a, now);
  }

  lemma RehearsalTellsNothing(disk: Record, m: Manifest, cfg: Config, a: Answers, now: int)
    ensures var end := Rehearse(disk, m, cfg, a, now); !Told(end) && end.trace == [] && end.rec == disk
  {
    match Prepare(disk, m, cfg, a.(saves := []), now)
    case Stopped(end) => assert Harmless(end);
    case Ready(_) =>
  }

  // ---- an attempt that died with steering down ----

  lemma OneSave(disk: Record, r: Record, result: SaveResult)
    ensures DiskAfter(disk, [Saved(r, result)]) == if result == Kept then disk else r
  {
    assert [Saved(r, result)][..0] == [];
  }

  lemma DeadAttemptIsClosed(disk: Record, m: Manifest, cfg: Config, a: Answers, now: int)
    requires InterruptedPhase(disk.phase) && !InstallYoung(disk, now) && !cfg.dryRun
    ensures var f, result, end := Enter(disk, Failed, now), SaveAt(a, 0), RunPass(disk, m, cfg, a, now);
      && end.rec == f && end.trace == [Saved(f, result)]
      && end.out.action == if result == Written then ClosingAction(disk, cfg) else NoAction
  {
    var f := Enter(disk, Failed, now);
    assert [] + [Saved(f, SaveAt(a, 0))] == [Saved(f, SaveAt(a, 0))];
  }

  /** A Run that finds an attempt dead in flight closes it with one save, which erases the record, and launches nothing.
      Where steering outlives the agent its caller is told to check the network if and only if that save was confirmed;
      so the warning is neither given nor left on disk if and only if the save took effect and was reported failed. */
  lemma DeadAttemptIsToldIff(disk: Record, m: Manifest, cfg: Config, a: Answers, now: int)
    requires NeedsNetworkRecovery(disk) && !InstallYoung(disk, now) && cfg.steeringSurvives && !cfg.dryRun
    ensures var end := RunPass(disk, m, cfg, a, now);
      && end.trace == [Saved(Enter(disk, Failed, now), SaveAt(a, 0))]
      && (end.out.action == CheckNetwork <==> SaveAt(a, 0) == Written)
      && (end.out.action == CheckNetwork || NeedsNetworkRecovery(DiskAfter(disk, end.trace)) <==> SaveAt(a, 0) != Replaced)
  {
    DeadAttemptIsClosed(disk, m, cfg, a, now);
    OneSave(disk, Enter(disk, Failed, now), SaveAt(a, 0));
  }

  /** Over any step of any run: a Run after which the disk no longer says that the network is in question found the
      attempt dead, and tells its caller to check the network, if it lives to return, exactly if its own save was
      confirmed. */
  lemma ErasedRecordIsToldIff(disk: Record, step: Step)
    requires WellFormed(disk) && step.act.DoRun? && step.act.cfg.steeringSurvives && !step.act.cfg.dryRun
    requires forall i :: 0 <= i < |step.late| ==> IsBookkeeping(step.late[i])
    requires NeedsNetworkRecovery(disk) && !NeedsNetworkRecovery(NextDisk(disk, step))
    ensures !InstallYoung(disk, step.now)
    ensures ActEnd(disk, step.act, step.now).out.action == CheckNetwork <==> SaveAt(step.act.answers, 0) == Written
  {
    if InstallYoung(disk, step.now) {
      YoungIsLeftAlone(disk, step);
    } else {
      DeadAttemptIsToldIff(disk, step.act.manifest, step.act.cfg, step.act.answers, step.now);
    }
  }

  lemma PerformedRollbackTells(held: Record, target: string, leaving: string, a: Answers, now: int)
    ensures var end := PerformRollback(held, target, leaving, a, now);
      Told(end) <==> RearmCall(false) in end.trace && !SilentRollback(Rollback, 1, a)
  {
    var begun := RecordRollback(held, target, leaving, now);
    FailedRestoreIsToldIff(begun, 1, Rollback, target, DEFAULT_MAX_ATTEMPTS, a, now);
    var first, rest := [Saved(begun, SaveAt(a, 0))], HandOver(begun, 1, Rollback, target, DEFAULT_MAX_ATTEMPTS, a, now).trace;
    assert RearmCall(false) in first + rest <==> RearmCall(false) in rest;
    assert [] + [Saved(begun, SaveAt(a, 0))] == first;
  }

  /** A Rollback tells its caller of a failed restore if and only if it happened and the exit is not that one. */
  lemma RollbackTellsCallerIff(disk: Record, req: Request, cfg: Config, a: Answers, now: int)
    ensures var end := RollbackPass(disk, req, cfg, a, now);
      Told(end) <==> RearmCall(false) in end.trace && !SilentRollback(Rollback, 1, a)
  {
    var held := HoldOutcome(disk, now);
    if RestoreTarget(held, req).Some? {
      PerformedRollbackTells(held, RestoreTarget(held, req).value, Leaving(req, a), a, now);
    }
  }

  /** A platform on which everything after taking steering down fails, and a disk that then stores nothing more. */
  function Failing(c: Gate.Conditions): Answers {
    Answers(Unreadable, c, true, true, true, true, false, false, [Written, Written, Written, Kept])
  }

  /** That exit is reached: on a new device, a rollback takes steering down, fails to restore it and says nothing of it. */
  lemma SilentRollbackHappens(cfg: Config, c: Gate.Conditions, version: string, now: int)
    requires !cfg.dryRun && TrimSpace(version) != ""
    ensures var end := RollbackPass(NEW_JOURNAL, Request(version, ""), cfg, Failing(c), now);
      DisarmCall(true) in end.trace && RearmCall(false) in end.trace && !Told(end)
  {
    var a, req := Failing(c), Request(version, "");
    RollbackTellsCallerIff(NEW_JOURNAL, req, cfg, a, now);
    NewDeviceRollsBack(req, cfg, a, now);
    FailingRollback(NEW_JOURNAL, TrimSpace(version), Leaving(req, a), c, now);
  }

  lemma NewDeviceRollsBack(req: Request, cfg: Config, a: Answers, now: int)
    requires !cfg.dryRun && TrimSpace(req.toVersion) != "" && a.packageHeld && a.running == Unreadable
    ensures RollbackPass(NEW_JOURNAL, req, cfg, a, now)
         == PerformRollback(NEW_JOURNAL, TrimSpace(req.toVersion), Leaving(req, a), a, now)
  {
  }

  lemma FailingRollback(held: Record, target: string, leaving: string, c: Gate.Conditions, now: int)
    ensures var t := PerformRollback(held, target, leaving, Failing(c), now).trace;
      DisarmCall(true) in t && RearmCall(false) in t
  {
    var begun, a := RecordRollback(held, target, leaving, now), Failing(c);
    var t := HandOver(begun, 1, Rollback, target, DEFAULT_MAX_ATTEMPTS, a, now).trace;
    assert t[1] == DisarmCall(true) && t[4] == RearmCall(false);
    assert PerformRollback(held, target, leaving, a, now).trace == [] + [Saved(begun, Written)] + t;
  }

  // ---- rehearsals ----

  /** With every save written, disarm and launch succeeding, the last stretch launches. */
  lemma NothingFailsMeansLaunch(p: Pass, kind: Kind, version: string, maxAttempts: int, a: Answers, now: int)
    requires a.saves == [] && a.disarmOk && a.launchOk
    ensures Continue(p, kind, version, maxAttempts, a, now).out.action == Launching
  {
  }

  /** A rehearsal leaves journal, disk and steering alone, and says "would launch" exactly when the real pass, with
      nothing failing, launches. */
  lemma RehearsalPredicts(disk: Record, m: Manifest, cfg: Config, a: Answers, now: int)
    requires a.saves == [] && a.disarmOk && a.launchOk
    ensures var dry, actual := Rehearse(disk, m, cfg, a, now), Perform(disk, m, cfg, a, now);
      && dry.rec == disk && dry.trace == []
      && (dry.out.action == WouldLaunch <==> actual.out.action == Launching)
  {
    assert a.(saves := []) == a;
    match Prepare(disk, m, cfg, a, now)
    case Stopped(end) => assert Harmless(end);
    case Ready(p) => NothingFailsMeansLaunch(p, Update, m.version, cfg.maxAttempts, a, now);
  }

  lemma PerformedRollbackLaunches(held: Record, target: string, leaving: string, a: Answers, now: int)
    requires a.saves == [] && a.disarmOk && a.launchOk
    ensures PerformRollback(held, target, leaving, a, now).out.action == Launching
  {
    var p := Save(Start(RecordRollback(held, target, leaving, now)), a);
    NothingFailsMeansLaunch(p, Rollback, target, DEFAULT_MAX_ATTEMPTS, a, now);
  }

  lemma DecisionIsRehearsed(disk: Record, held: Record, req: Request, cfg: Config, a: Answers, now: int)
    requires a.saves == [] && a.disarmOk && a.launchOk
    ensures var dry := RollbackDecided(disk, held, req, cfg.(dryRun := true), a, now);
      var actual := RollbackDecided(disk, held, req, cfg.(dryRun := false), a, now);
      && dry.rec == disk && dry.trace == []
      && (dry.out.action == WouldLaunch <==> actual.out.action == Launching)
  {
    if RestoreTarget(held, req).Some? {
      PerformedRollbackLaunches(held, RestoreTarget(held, req).value, Leaving(req, a), a, now);
    }
  }

  /** A rehearsed rollback leaves the journal as it is, not even holding the outcome it would keep, and says "would
      launch" exactly when the real one, with nothing failing, launches. */
  lemma RollbackRehearsalPredicts(disk: Record, req: Request, cfg: Config, a: Answers, now: int)
    requires a.saves == [] && a.disarmOk && a.launchOk
    ensures var dry := RollbackPass(disk, req, cfg.(dryRun := true), a, now);
      var actual := RollbackPass(disk, req, cfg.(dryRun := false), a, now);
      && dry.rec == disk && dry.trace == []
      && (dry.out.action == WouldLaunch <==> actual.out.action == Launching)
  {
    DecisionIsRehearsed(disk, HoldOutcome(disk, now), req, cfg, a, now);
  }
}
