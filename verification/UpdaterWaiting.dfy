/** Waiting ends: a device that keeps polling one applicable release, with nothing the fleet decided against it, is
    never held at the gate once its deadline has run out. */
module UpdaterWaiting {
  import opened Text
  import opened Versions
  import opened Journals
  import opened Updater
  import opened UpdaterRuns
  import Gate

  /** One pass over the same manifest, dying after `cut` effects. */
  datatype Poll = Poll(cfg: Config, answers: Answers, now: int, cut: nat)

  /** The attempt is recorded, has changed nothing, and began waiting at t0. */
  predicate WaitingOn(r: Record, m: Manifest, t0: int) {
    r.phase == Verified && r.attempt.target == m.version && r.attempt.startedAt == Some(t0) && !IsPoisoned(r, m.version)
  }

  /** The release applies, no wave is set, and the device's clock is the pass's clock. */
  predicate Unobstructed(m: Manifest, q: Poll) {
    && q.answers.running.Known?
    && Applicable(m, q.answers.running.version, q.cfg.platform, q.cfg.arch) == None
    && Blank(q.cfg.planHold) && !q.cfg.frozen && !q.answers.conditions.frozen
    && q.cfg.eligibleSince.None? && q.answers.conditions.eligibleSince.None?
    && q.answers.conditions.now == q.now
  }

  predicate HeldAtGate(r: Record, q: Poll) {
    Gate.EvaluateGate(q.cfg.window, GateConditions(r, q.cfg, q.answers)).Wait?
  }

  /** The pass stops before it changes anything: the running version does not allow the release or cannot be read, the
      gate holds, whoever decided so, or there is nothing to restore from. */
  predicate TurnedAway(r: Record, m: Manifest, q: Poll) {
    || !q.answers.running.Known? || Applicable(m, q.answers.running.version, q.cfg.platform, q.cfg.arch) != None
    || HeldAtGate(r, q) || !q.answers.materialCaptured
  }

  function PollTrace(r: Record, m: Manifest, q: Poll): seq<Effect> {
    var plan := Perform(r, m, q.cfg, q.answers, q.now).trace;
    if q.cut < |plan| then plan[..q.cut] else plan
  }

  function AfterPoll(r: Record, m: Manifest, q: Poll): Record {
    DiskAfter(r, PollTrace(r, m, q))
  }

  function AfterPolls(r: Record, m: Manifest, polls: seq<Poll>): Record {
    if polls == [] then r else AfterPoll(AfterPolls(r, m, polls[..|polls| - 1]), m, polls[|polls| - 1])
  }

  ghost predicate SavesOnly(t: seq<Effect>, m: Manifest, t0: int) {
    forall i :: 0 <= i < |t| ==> t[i].Saved? && WaitingOn(t[i].rec, m, t0)
  }

  lemma {:induction false} DiskIsOneOf(r: Record, t: seq<Effect>, m: Manifest, t0: int)
    requires WaitingOn(r, m, t0) && SavesOnly(t, m, t0)
    ensures WaitingOn(DiskAfter(r, t), m, t0)
  {
    if t != [] { DiskIsOneOf(r, t[..|t| - 1], m, t0); }
  }

  lemma SamePoison(r: Record, s: Record, v: string)
    requires r.poisoned == s.poisoned
    ensures IsPoisoned(r, v) == IsPoisoned(s, v)
  {
  }

  lemma TurnedAtGateSavesOnly(p: Pass, m: Manifest, q: Poll, t0: int)
    requires WaitingOn(p.rec, m, t0) && SavesOnly(p.trace, m, t0)
    requires HeldAtGate(p.rec, q) || !q.answers.materialCaptured
    ensures PassGate(p, q.cfg, q.answers, q.now).Stopped?
    ensures SavesOnly(PassGate(p, q.cfg, q.answers, q.now).end.trace, m, t0)
  {
    if HeldAtGate(p.rec, q) {
      var reason := Gate.EvaluateGate(q.cfg.window, GateConditions(p.rec, q.cfg, q.answers)).reason;
      SamePoison(p.rec, RecordWait(p.rec, GateWait(reason)), m.version);
    }
  }

  lemma TurnedAdmitSavesOnly(r: Record, m: Manifest, q: Poll, t0: int)
    requires WaitingOn(r, m, t0) && q.answers.running.Known? && (HeldAtGate(r, q) || !q.answers.materialCaptured)
    ensures var admitted := Admit(r, m, q.answers.running.version, q.cfg, q.answers, q.now);
      admitted.Stopped? && SavesOnly(admitted.end.trace, m, t0)
  {
    var running := q.answers.running.version;
    var moved := r.(attempt := r.attempt.(from := running));
    SamePoison(r, moved, m.version);
    assert GateConditions(moved, q.cfg, q.answers) == GateConditions(r, q.cfg, q.answers);
    if running != "" && r.attempt.from != running {
      if Save(Start(moved), q.answers).stored { TurnedAtGateSavesOnly(Save(Start(moved), q.answers), m, q, t0); }
    } else {
      TurnedAtGateSavesOnly(Start(r), m, q, t0);
    }
  }

  lemma TurnedPassSavesOnly(r: Record, m: Manifest, q: Poll, t0: int)
    requires WaitingOn(r, m, t0) && TurnedAway(r, m, q)
    ensures SavesOnly(Perform(r, m, q.cfg, q.answers, q.now).trace, m, t0)
  {
    if q.answers.running.Known? && Applicable(m, q.answers.running.version, q.cfg.platform, q.cfg.arch) == None {
      TurnedAdmitSavesOnly(r, m, q, t0);
    }
  }

  lemma SavesOnlyPrefix(t: seq<Effect>, k: nat, m: Manifest, t0: int)
    requires SavesOnly(t, m, t0)
    ensures SavesOnly(if k < |t| then t[..k] else t, m, t0)
  {
  }

  /** A pass that is turned away leaves the start time where it was, wherever it dies and whatever its saves do. */
  lemma TurnedPassKeepsStart(r: Record, m: Manifest, q: Poll, t0: int)
    requires WaitingOn(r, m, t0) && TurnedAway(r, m, q)
    ensures WaitingOn(AfterPoll(r, m, q), m, t0)
  {
    TurnedPassSavesOnly(r, m, q, t0);
    SavesOnlyPrefix(Perform(r, m, q.cfg, q.answers, q.now).trace, q.cut, m, t0);
    DiskIsOneOf(r, PollTrace(r, m, q), m, t0);
  }

  /** Every poll was turned away. */
  predicate AllTurned(r: Record, m: Manifest, polls: seq<Poll>) {
    polls != [] ==>
      var n := |polls| - 1;
      AllTurned(r, m, polls[..n]) && TurnedAway(AfterPolls(r, m, polls[..n]), m, polls[n])
  }

  lemma {:induction false} TurnedPassesKeepStart(r: Record, m: Manifest, polls: seq<Poll>, t0: int)
    requires WaitingOn(r, m, t0) && AllTurned(r, m, polls)
    ensures WaitingOn(AfterPolls(r, m, polls), m, t0)
  {
    if polls != [] {
      var n := |polls| - 1;
      TurnedPassesKeepStart(r, m, polls[..n], t0);
      TurnedPassKeepsStart(AfterPolls(r, m, polls[..n]), m, polls[n], t0);
    }
  }

  lemma HeldMeansEarly(r: Record, m: Manifest, q: Poll, t0: int)
    requires WaitingOn(r, m, t0) && Unobstructed(m, q) && HeldAtGate(r, q) && q.cfg.window.deadlineDays > 0
    ensures q.now < t0 + q.cfg.window.deadlineDays * Gate.DAY
  {
    var c := GateConditions(r, q.cfg, q.answers);
    assert c.eligibleSince == Some(t0) && c.now == q.now;
  }

  /** However often the device has polled and been turned away, by the fleet, by its own rules or for want of restore
      material, an unobstructed pass held at the gate is before the deadline: the first such pass at or after the
      start plus the deadline days goes through the gate. */
  lemma HeldOnlyBeforeDeadline(r: Record, m: Manifest, polls: seq<Poll>, last: Poll, t0: int)
    requires WaitingOn(r, m, t0) && AllTurned(r, m, polls)
    requires Unobstructed(m, last) && HeldAtGate(AfterPolls(r, m, polls), last) && last.cfg.window.deadlineDays > 0
    ensures last.now < t0 + last.cfg.window.deadlineDays * Gate.DAY
  {
    TurnedPassesKeepStart(r, m, polls, t0);
    HeldMeansEarly(AfterPolls(r, m, polls), m, last, t0);
  }
}
