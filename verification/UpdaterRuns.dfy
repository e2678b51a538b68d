/** Safety of the updater over whole runs: any sequence of passes over one journal file, with a crash between
    any two effects, each pass reloading what the disk last held. */
module UpdaterRuns {
  import opened Text
  import opened Versions
  import opened Journals
  import opened Updater
  import opened UpdaterPasses

  // ---- runs ----

  /** What a process does with the journal it loaded. A reconcile that closes an attempt is saved by its caller,
      with the report it produced already pending. */
  datatype Act =
    | DoRun(manifest: Manifest, cfg: Config, answers: Answers)
    | DoRollback(request: Request, cfg: Config, answers: Answers)
    | DoReconcile(running: Option<string>, result: SaveResult)
    | DoBookkeeping

  /** One process: an act at a time, then perhaps a late save of report bookkeeping made in memory; `cut` is how
      many of its effects happen before it dies. */
  datatype Step = Step(act: Act, now: int, late: seq<Op>, lateSave: Option<SaveResult>, cut: nat)

  datatype Event =
    | Launched(at: int, kind: Kind, version: string)
    | Confirmed(at: int, running: string, version: string)

  /** The journal file, the clock, and what has happened so far. */
  datatype World = World(disk: Record, clock: int, history: seq<Event>)

  function Landed(disk: Record, running: Option<string>, now: int): Record {
    var r := Reconcile(disk, running, now);
    r.(outbox := r.outbox.(pending := Some(ReportOf(r, TerminalStatus(r), now))))
  }

  function ActEnd(disk: Record, act: Act, now: int): End {
    match act
    case DoRun(m, cfg, a) => RunPass(disk, m, cfg, a, now)
    case DoRollback(req, cfg, a) => RollbackPass(disk, req, cfg, a, now)
    case DoReconcile(running, result) =>
      if Lands(disk, running)
      then End(Landed(disk, running, now), [Saved(Landed(disk, running, now), result)], Outcome(Nothing, false), {})
      else End(disk, [], Outcome(Nothing, false), {})
    case DoBookkeeping => End(disk, [], Outcome(Nothing, false), {})
  }

  function LateEffects(end: End, step: Step): seq<Effect> {
    match step.lateSave
    case None => []
    case Some(result) => [Saved(ApplyAll(end.rec, step.late), result)]
  }

  /** Everything the process would do, and the part of it that happens. */
  function Planned(disk: Record, step: Step): seq<Effect> {
    var end := ActEnd(disk, step.act, step.now);
    end.trace + LateEffects(end, step)
  }

  function Happened(disk: Record, step: Step): seq<Effect> {
    var plan := Planned(disk, step);
    if step.cut < |plan| then plan[..step.cut] else plan
  }

  /** What the disk holds after some effects: the last journal that reached it. */
  function DiskAfter(disk: Record, trace: seq<Effect>): Record {
    if trace == [] then disk
    else
      var last := trace[|trace| - 1];
      if last.Saved? && last.result != Kept then last.rec else DiskAfter(disk, trace[..|trace| - 1])
  }

  function LaunchEvents(trace: seq<Effect>, now: int): seq<Event> {
    if trace == [] then []
    else
      var front, last := LaunchEvents(trace[..|trace| - 1], now), trace[|trace| - 1];
      if last.Launch? && last.ok then front + [Launched(now, last.kind, last.version)] else front
  }

  function Sightings(disk: Record, step: Step): seq<Event> {
    match step.act
    case DoReconcile(running, _) =>
      if Lands(disk, running) then [Confirmed(step.now, running.value, disk.attempt.target)] else []
    case _ => []
  }

  /** What one step adds to the history. */
  function Added(disk: Record, step: Step): seq<Event> {
    Sightings(disk, step) + LaunchEvents(Happened(disk, step), step.now)
  }

  function NextDisk(disk: Record, step: Step): Record {
    DiskAfter(disk, Happened(disk, step))
  }

  function Advance(w: World, step: Step): World {
    World(NextDisk(w.disk, step), step.now, w.history + Added(w.disk, step))
  }

  /** Clocks do not run backwards, and late edits touch reporting only. */
  predicate Admissible(w: World, step: Step) {
    w.clock <= step.now && forall i :: 0 <= i < |step.late| ==> IsBookkeeping(step.late[i])
  }

  function Play(w: World, steps: seq<Step>): World {
    if steps == [] then w else Advance(Play(w, steps[..|steps| - 1]), steps[|steps| - 1])
  }

  predicate AllAdmissible(w: World, steps: seq<Step>) {
    forall k :: 0 <= k < |steps| ==> Admissible(Play(w, steps[..k]), steps[k])
  }

  // ---- one step ----

  lemma LandedKeeps(disk: Record, running: Option<string>, now: int)
    requires WellFormed(disk) && Lands(disk, running)
    ensures WellFormed(Landed(disk, running, now)) && Landed(disk, running, now).poisoned == disk.poisoned
  {
    var v := TrimSpace(disk.attempt.target);
    EnterKeeps(disk.(failures := disk.failures - {v}), if disk.attempt.kind == Rollback then RolledBack else Completed, now);
    EnterKeeps(disk, if disk.attempt.kind == Rollback then RolledBack else Completed, now);
  }

  lemma ActSound(disk: Record, act: Act, now: int)
    requires WellFormed(disk)
    ensures exists kind, version :: EndSound(disk, now, ActEnd(disk, act, now), kind, version)
  {
    match act
    case DoRun(m, cfg, a) =>
      RunSound(disk, m, cfg, a, now);
      assert EndSound(disk, now, ActEnd(disk, act, now), Update, m.version);
    case DoRollback(req, cfg, a) =>
      RollbackSound(disk, req, cfg, a, now);
      assert EndSound(disk, now, ActEnd(disk, act, now), Rollback, Restored(HoldOutcome(disk, now), req));
    case DoReconcile(running, result) =>
      if Lands(disk, running) {
        LandedKeeps(disk, running, now);
        SoundThen(disk, now, [], Landed(disk, running, now), result);
        assert [] + [Saved(Landed(disk, running, now), result)] == [Saved(Landed(disk, running, now), result)];
      }
      assert EndSound(disk, now, ActEnd(disk, act, now), Update, "");
    case DoBookkeeping =>
      assert EndSound(disk, now, ActEnd(disk, act, now), Update, "");
  }

  /** A save of a journal in flight after the launch it names keeps the trace sound. */
  lemma SoundThenLate(disk: Record, now: int, end: End, kind: Kind, version: string, s: Record, result: SaveResult)
    requires EndSound(disk, now, end, kind, version)
    requires WellFormed(s) && SameCore(end.rec, s)
    ensures Sound(disk, now, end.trace + [Saved(s, result)])
  {
    var t := end.trace + [Saved(s, result)];
    if NoLaunch(end.trace) {
      SoundThen(disk, now, end.trace, s, result);
    } else {
      forall i | 0 <= i < |t| ensures EffectSound(disk, now, t, i) {
        if i < |end.trace| {
          assert EffectSound(disk, now, end.trace, i) && t[i] == end.trace[i];
        }
      }
    }
  }

  lemma PlannedSound(disk: Record, step: Step)
    requires WellFormed(disk) && forall i :: 0 <= i < |step.late| ==> IsBookkeeping(step.late[i])
    ensures Sound(disk, step.now, Planned(disk, step))
  {
    var end := ActEnd(disk, step.act, step.now);
    ActSound(disk, step.act, step.now);
    var kind, version :| EndSound(disk, step.now, end, kind, version);
    BookkeepingKeeps(end.rec, step.late);
    match step.lateSave
    case None => assert Planned(disk, step) == end.trace;
    case Some(result) => SoundThenLate(disk, step.now, end, kind, version, ApplyAll(end.rec, step.late), result);
  }

  lemma PrefixSound(disk: Record, now: int, trace: seq<Effect>, k: nat)
    requires Sound(disk, now, trace) && k <= |trace|
    ensures Sound(disk, now, trace[..k])
  {
    forall i | 0 <= i < k ensures EffectSound(disk, now, trace[..k], i) {
      assert EffectSound(disk, now, trace, i);
    }
  }

  lemma HappenedSound(disk: Record, step: Step)
    requires WellFormed(disk) && forall i :: 0 <= i < |step.late| ==> IsBookkeeping(step.late[i])
    ensures Sound(disk, step.now, Happened(disk, step))
  {
    PlannedSound(disk, step);
    if step.cut < |Planned(disk, step)| {
      PrefixSound(disk, step.now, Planned(disk, step), step.cut);
    }
  }

  /** The disk and the launches after any sound trace: refusals kept; at most one installer started, and then the
      disk says it is in flight since this very pass, which found no young attempt on the disk. */
  ghost predicate Replayed(disk: Record, now: int, trace: seq<Effect>) {
    var after, launches := DiskAfter(disk, trace), LaunchEvents(trace, now);
    && WellFormed(after) && disk.poisoned.Keys <= after.poisoned.Keys
    && (launches == [] ||
        (|launches| == 1 && launches[0].Launched? && launches[0].at == now
         && InFlight(after, launches[0].kind, launches[0].version, now)
         && !(InterruptedPhase(disk.phase) && InstallYoung(disk, now))))
  }

  lemma {:induction false} NoLaunchNoEvents(trace: seq<Effect>, now: int)
    requires NoLaunch(trace)
    ensures LaunchEvents(trace, now) == []
  {
    if trace != [] { NoLaunchNoEvents(trace[..|trace| - 1], now); }
  }

  /** Whatever launch the events record is in the trace. */
  lemma {:induction false} EventsComeFromLaunches(trace: seq<Effect>, now: int, e: Event)
    requires e in LaunchEvents(trace, now)
    ensures exists i :: 0 <= i < |trace| && trace[i].Launch? && trace[i].ok && e == Launched(now, trace[i].kind, trace[i].version)
  {
    var front, last := trace[..|trace| - 1], trace[|trace| - 1];
    if e in LaunchEvents(front, now) {
      EventsComeFromLaunches(front, now, e);
      var i :| 0 <= i < |front| && front[i].Launch? && front[i].ok && e == Launched(now, front[i].kind, front[i].version);
      assert trace[i] == front[i];
    }
  }

  lemma {:induction false} Replay(disk: Record, now: int, trace: seq<Effect>)
    requires WellFormed(disk) && Sound(disk, now, trace)
    ensures Replayed(disk, now, trace)
  {
    if trace != [] {
      var n := |trace| - 1;
      var front, last := trace[..n], trace[n];
      PrefixSound(disk, now, trace, n);
      Replay(disk, now, front);
      assert EffectSound(disk, now, trace, n);
      if LaunchEvents(front, now) != [] {
        var e := LaunchEvents(front, now)[0];
        EventsComeFromLaunches(front, now, e);
        var i :| 0 <= i < n && front[i].Launch? && front[i].ok && e == Launched(now, front[i].kind, front[i].version);
        assert EffectSound(disk, now, trace, i) && trace[i] == front[i];
      } else if last.Launch? {
        assert DiskAfter(disk, front) == front[n - 1].rec;
      }
    }
  }

  // ---- no second installer ----

  /** The first launch's target was seen running, by a reconcile, between the two positions. */
  ghost predicate SeenBetween(h: seq<Event>, i: nat, j: nat)
    requires i < j <= |h| && h[i].Launched?
  {
    exists k :: i < k < j && h[k].Confirmed? && h[k].version == h[i].version && SameVersion(h[k].running, h[i].version)
  }

  /** Two launches less than the grace apart have such a sighting between them. */
  ghost predicate NoSecondInstaller(h: seq<Event>) {
    forall i, j :: 0 <= i < j < |h| && h[i].Launched? && h[j].Launched? && h[j].at - h[i].at < INSTALL_GRACE ==>
      SeenBetween(h, i, j)
  }

  /** Launch i is accounted for: seen landed, still in flight on the disk, or older than the grace. */
  ghost predicate Accounted(w: World, i: nat)
    requires i < |w.history| && w.history[i].Launched?
  {
    var e := w.history[i];
    && e.at <= w.clock
    && (SeenBetween(w.history, i, |w.history|) || InFlight(w.disk, e.kind, e.version, e.at) || e.at + INSTALL_GRACE <= w.clock)
  }

  ghost predicate Safe(w: World) {
    && WellFormed(w.disk) && NoSecondInstaller(w.history)
    && forall i :: 0 <= i < |w.history| && w.history[i].Launched? ==> Accounted(w, i)
  }

  /** A young attempt on the disk makes every pass but a landing reconcile leave it exactly as it is. */
  lemma YoungIsLeftAlone(disk: Record, step: Step)
    requires WellFormed(disk) && InterruptedPhase(disk.phase) && InstallYoung(disk, step.now)
    requires forall i :: 0 <= i < |step.late| ==> IsBookkeeping(step.late[i])
    requires Sightings(disk, step) == []
    ensures SameCore(disk, DiskAfter(disk, Happened(disk, step)))
    ensures LaunchEvents(Happened(disk, step), step.now) == []
  {
    YoungPassIsIdle(disk, step);
    BookkeepingKeeps(disk, step.late);
    NoLaunchNoEvents(Happened(disk, step), step.now);
  }

  lemma YoungPassIsIdle(disk: Record, step: Step)
    requires WellFormed(disk) && InterruptedPhase(disk.phase) && InstallYoung(disk, step.now) && Sightings(disk, step) == []
    ensures ActEnd(disk, step.act, step.now).trace == [] && ActEnd(disk, step.act, step.now).rec == disk
  {
  }

  lemma SightingMeansNoLaunch(disk: Record, step: Step)
    requires Sightings(disk, step) != []
    ensures LaunchEvents(Happened(disk, step), step.now) == []
  {
    NoLaunchNoEvents(Happened(disk, step), step.now);
  }

  /** All that the history argument needs of a step from `disk` to `after` at `now`. */
  ghost predicate StepFacts(disk: Record, after: Record, now: int, added: seq<Event>, same: (string, string) -> bool) {
    && WellFormed(after)
    && (added == [] || |added| == 1)
    && (forall e :: e in added && e.Launched? ==>
          e.at == now && InFlight(after, e.kind, e.version, now) && !(InterruptedPhase(disk.phase) && InstallYoung(disk, now)))
    && (forall e :: e in added && e.Confirmed? ==>
          e.version == disk.attempt.target && same(e.running, e.version))
    && (InterruptedPhase(disk.phase) && InstallYoung(disk, now) && added == [] ==> SameCore(disk, after))
  }

  ghost predicate SightingShape(disk: Record, sight: seq<Event>, same: (string, string) -> bool) {
    |sight| == 1 && sight[0].Confirmed? && sight[0].version == disk.attempt.target
    && same(sight[0].running, sight[0].version)
  }

  lemma SightingsShape(disk: Record, step: Step)
    ensures Sightings(disk, step) == [] || SightingShape(disk, Sightings(disk, step), SameVersion)
  {
  }

  lemma AssembleFacts(disk: Record, trace: seq<Effect>, now: int, sight: seq<Event>, same: (string, string) -> bool)
    requires Replayed(disk, now, trace)
    requires sight == [] || (SightingShape(disk, sight, same) && LaunchEvents(trace, now) == [])
    requires InterruptedPhase(disk.phase) && InstallYoung(disk, now) && sight == [] ==> SameCore(disk, DiskAfter(disk, trace))
    ensures StepFacts(disk, DiskAfter(disk, trace), now, sight + LaunchEvents(trace, now), same)
  {
  }

  lemma StepHasFacts(disk: Record, step: Step)
    requires WellFormed(disk) && forall i :: 0 <= i < |step.late| ==> IsBookkeeping(step.late[i])
    ensures StepFacts(disk, NextDisk(disk, step), step.now, Added(disk, step), SameVersion)
  {
    var trace, sight := Happened(disk, step), Sightings(disk, step);
    HappenedSound(disk, step);
    Replay(disk, step.now, trace);
    SightingsShape(disk, step);
    if sight != [] {
      SightingMeansNoLaunch(disk, step);
    } else if InterruptedPhase(disk.phase) && InstallYoung(disk, step.now) {
      YoungIsLeftAlone(disk, step);
    }
    AssembleFacts(disk, trace, step.now, sight, SameVersion);
  }

  lemma SeenStays(h: seq<Event>, added: seq<Event>, i: nat, j: nat)
    requires i < j <= |h| && h[i].Launched? && SeenBetween(h, i, j)
    ensures SeenBetween(h + added, i, j) && SeenBetween(h + added, i, |h + added|)
  {
    var k :| i < k < j && h[k].Confirmed? && h[k].version == h[i].version && SameVersion(h[k].running, h[i].version);
    assert (h + added)[k] == h[k];
  }

  lemma OldLaunchStaysAccounted(w: World, after: Record, now: int, added: seq<Event>, i: nat)
    requires Safe(w) && w.clock <= now && StepFacts(w.disk, after, now, added, SameVersion)
    requires i < |w.history| && w.history[i].Launched?
    ensures Accounted(World(after, now, w.history + added), i)
  {
    var e, h := w.history[i], w.history + added;
    assert Accounted(w, i);
    if SeenBetween(w.history, i, |w.history|) {
      SeenStays(w.history, added, i, |w.history|);
    } else if now < e.at + INSTALL_GRACE {
      assert InFlight(w.disk, e.kind, e.version, e.at) && InstallYoung(w.disk, now);
      if added != [] {
        assert h[|w.history|] == added[0] && added[0] in added;
        assert added[0].Confirmed?;
      }
    }
  }

  lemma NewLaunchIsSpaced(w: World, after: Record, now: int, added: seq<Event>, i: nat)
    requires Safe(w) && w.clock <= now && StepFacts(w.disk, after, now, added, SameVersion)
    requires i < |w.history| && w.history[i].Launched?
    requires added != [] && added[0].Launched? && now - w.history[i].at < INSTALL_GRACE
    ensures SeenBetween(w.history, i, |w.history|)
  {
    assert Accounted(w, i) && added[0] in added;
  }

  lemma HistoryStep(w: World, after: Record, now: int, added: seq<Event>)
    requires Safe(w) && w.clock <= now && StepFacts(w.disk, after, now, added, SameVersion)
    ensures Safe(World(after, now, w.history + added))
  {
    var next, h := World(after, now, w.history + added), w.history;
    forall i | 0 <= i < |next.history| && next.history[i].Launched? ensures Accounted(next, i) {
      if i < |h| {
        OldLaunchStaysAccounted(w, after, now, added, i);
      } else {
        assert added[0] in added;
      }
    }
    forall i, j | 0 <= i < j < |next.history| && next.history[i].Launched? && next.history[j].Launched?
                  && next.history[j].at - next.history[i].at < INSTALL_GRACE
      ensures SeenBetween(next.history, i, j)
    {
      if j == |h| {
        assert added[0] in added;
        NewLaunchIsSpaced(w, after, now, added, i);
      }
      SeenStays(h, added, i, j);
    }
  }

  lemma StepSafe(w: World, step: Step)
    requires Safe(w) && Admissible(w, step)
    ensures Safe(Advance(w, step))
  {
    StepHasFacts(w.disk, step);
    HistoryStep(w, NextDisk(w.disk, step), step.now, Added(w.disk, step));
  }

  lemma FrontAdmissible(w: World, steps: seq<Step>)
    requires AllAdmissible(w, steps) && steps != []
    ensures AllAdmissible(w, steps[..|steps| - 1])
    ensures Admissible(Play(w, steps[..|steps| - 1]), steps[|steps| - 1])
  {
    var front := steps[..|steps| - 1];
    forall k | 0 <= k < |front| ensures Admissible(Play(w, front[..k]), front[k]) {
      assert front[..k] == steps[..k];
    }
  }

  lemma {:induction false} PlaySafe(w: World, steps: seq<Step>)
    requires Safe(w) && AllAdmissible(w, steps)
    ensures Safe(Play(w, steps))
  {
    if steps != [] {
      FrontAdmissible(w, steps);
      PlaySafe(w, steps[..|steps| - 1]);
      StepSafe(Play(w, steps[..|steps| - 1]), steps[|steps| - 1]);
    }
  }

  /** From a device that never updated, however passes, crashes and failed writes interleave, two installers are
      never launched within the grace unless the first one's target was seen running in between. */
  lemma NeverTwoInstallers(clock: int, steps: seq<Step>)
    requires AllAdmissible(World(NEW_JOURNAL, clock, []), steps)
    ensures NoSecondInstaller(Play(World(NEW_JOURNAL, clock, []), steps).history)
  {
    PlaySafe(World(NEW_JOURNAL, clock, []), steps);
  }
}
