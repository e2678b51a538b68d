/** The updater's journal (agentupdate/journal.go, agentupdate/report_quarantine.go): its contents as a value,
    the transitions as functions on that value, and the object whose methods perform them in place.
    Times are whole seconds, absent where the file holds no time. Reasons keep which case they report. */
module Journals {
  import opened Text
  import opened Versions
  import Gate

  datatype Phase = Idle | Verified | Snapshotted | Disarmed | Executing | RollingBack | Observing
                 | Completed | PendingReboot | Failed | RolledBack | Unrecoverable

  datatype Kind = Update | Rollback

  datatype Cause = DisarmFailed | ExecuteFailed | RollbackLaunchFailed | AttemptInterrupted

  /** Why the last attempt failed, and whether steering could not be confirmed restored afterwards. */
  datatype FailureNote = FailureNote(cause: Option<Cause>, steeringUnconfirmed: bool)

  datatype WaitNote = NoWait | GateWait(reason: Gate.WaitReason) | NothingRefused

  datatype Poison = FailedTimes(times: nat) | LeftBehind(restored: string)

  datatype ReportStatus = ReportInstalled | ReportFailed | ReportRolledBack

  datatype Report = Report(status: ReportStatus, from: string, target: string, kind: Kind, at: int)

  datatype Quarantined = Quarantined(status: ReportStatus, version: string, at: int, attempts: nat)

  /** The current or most recent attempt. */
  datatype Attempt = Attempt(
    target: string, from: string, startedAt: Option<int>, inFlightSince: Option<int>, kind: Kind)

  /** What the fleet is owed, what it was told, and how the reporting is going. `earned`, `assumed` and
      `forgotten` say how the reported marker came about. */
  datatype Outbox = Outbox(
    pending: Option<Report>, dropped: nat, attempts: nat, quarantined: seq<Quarantined>,
    reported: string, earned: bool, assumed: bool, forgotten: bool)

  /** Everything the journal file holds. */
  datatype Record = Record(
    attempt: Attempt, phase: Phase, terminalSeq: nat, failures: map<string, nat>, poisoned: map<string, Poison>,
    lastWait: WaitNote, lastFailure: FailureNote, planFloor: Option<int>, outbox: Outbox)

  const DEFAULT_MAX_ATTEMPTS: nat := 3
  const DEFAULT_REPORT_MAX_ATTEMPTS: nat := 10
  const INSTALL_GRACE: int := 600

  const NEW_JOURNAL: Record := Record(
    Attempt("", "", None, None, Update), Idle, 0, map[], map[], NoWait, FailureNote(None, false), None,
    Outbox(None, 0, 0, [], "", false, false, false))

  // ---- questions ----

  predicate InterruptedPhase(p: Phase) { p in {Snapshotted, Disarmed, Executing, RollingBack, Observing} }

  predicate InFlightPhase(p: Phase) { p in {Disarmed, Executing, RollingBack} }

  predicate NeedsNetworkRecovery(r: Record) { InFlightPhase(r.phase) }

  /** Phases whose entry the fleet hears about. */
  predicate ReportablePhase(p: Phase) { p in {Completed, RolledBack, Failed} }

  predicate Terminal(r: Record) { ReportablePhase(r.phase) || r.phase == Unrecoverable }

  function InstallStarted(r: Record): Option<int> {
    if r.attempt.inFlightSince.Some? then r.attempt.inFlightSince else r.attempt.startedAt
  }

  predicate InstallYoung(r: Record, now: int) {
    InstallStarted(r).Some? && now - InstallStarted(r).value < INSTALL_GRACE
  }

  /** Refused on this device, under any build metadata. */
  predicate IsPoisoned(r: Record, version: string) {
    TrimSpace(version) in r.poisoned || exists k :: k in r.poisoned && SameVersion(k, version)
  }

  function PhaseName(p: Phase): string {
    match p
    case Completed => "completed"
    case RolledBack => "rolled_back"
    case _ => "failed"
  }

  function FailureCount(r: Record, version: string): nat {
    if version in r.failures then r.failures[version] else 0
  }

  function OutcomeFingerprint(r: Record): string {
    if !ReportablePhase(r.phase) then ""
    else if r.phase == Failed then
      PhaseName(r.phase) + "|" + r.attempt.target + "|" + Itoa(FailureCount(r, r.attempt.target)) + "|" + Itoa(r.terminalSeq)
    else
      PhaseName(r.phase) + "|" + r.attempt.target + "|" + Itoa(r.terminalSeq)
  }

  predicate OwesOutcome(r: Record) {
    OutcomeFingerprint(r) != "" && OutcomeFingerprint(r) != r.outbox.reported
  }

  function TerminalStatus(r: Record): ReportStatus {
    match r.phase
    case RolledBack => ReportRolledBack
    case Failed => ReportFailed
    case _ => ReportInstalled
  }

  function ReportOf(r: Record, status: ReportStatus, now: int): Report {
    Report(status, r.attempt.from, r.attempt.target, r.attempt.kind, now)
  }

  // ---- transitions ----

  function Begin(r: Record, target: string, from: string, now: int): Record {
    r.(attempt := Attempt(target, from, Some(now), None, Update), phase := Verified)
  }

  function BeginRollback(r: Record, target: string, from: string, now: int): Record {
    r.(attempt := Attempt(target, from, Some(now), None, Rollback), phase := Verified)
  }

  function Refuse(r: Record, version: string, why: Poison): Record {
    var v := TrimSpace(version);
    if v == "" then r else r.(poisoned := r.poisoned[v := why])
  }

  function Enter(r: Record, p: Phase, now: int): Record {
    r.(terminalSeq := if r.phase != p && ReportablePhase(p) then r.terminalSeq + 1 else r.terminalSeq,
       attempt := if InFlightPhase(p) && r.attempt.inFlightSince.None?
                  then r.attempt.(inFlightSince := Some(now)) else r.attempt,
       phase := p)
  }

  function RecordWait(r: Record, note: WaitNote): Record {
    r.(lastWait := note)
  }

  function Ceiling(maxAttempts: int): nat {
    if maxAttempts <= 0 then DEFAULT_MAX_ATTEMPTS else maxAttempts
  }

  function RecordFailure(r: Record, note: FailureNote, maxAttempts: int, now: int): Record {
    var v := TrimSpace(r.attempt.target);
    if v == "" then Enter(r.(lastFailure := note), Failed, now)
    else
      var n := FailureCount(r, v) + 1;
      var failed := Enter(r.(lastFailure := note, failures := r.failures[v := n]), Failed, now);
      if n < Ceiling(maxAttempts) then failed else failed.(poisoned := failed.poisoned[v := FailedTimes(n)])
  }

  function RecordSuccess(r: Record, now: int): Record {
    var v := TrimSpace(r.attempt.target);
    Enter(if v == "" then r else r.(failures := r.failures - {v}),
          if r.attempt.kind == Rollback then RolledBack else Completed, now)
  }

  function MarkPendingIfFree(r: Record, report: Report): Record {
    r.(outbox := if r.outbox.pending.Some? then r.outbox.(dropped := r.outbox.dropped + 1)
                 else r.outbox.(pending := Some(report)))
  }

  /** The slot taken whatever it holds: what is done where the pass has just seen it empty. */
  function MarkPending(r: Record, report: Report): Record { r.(outbox := r.outbox.(pending := Some(report))) }

  function ClearPending(r: Record): Record { r.(outbox := r.outbox.(pending := None)) }

  function ClearQueueFailures(r: Record): Record { r.(outbox := r.outbox.(attempts := 0)) }

  /** An outcome only assumed reported is owed again, and will not be assumed a second time. */
  function ForgetAssumed(r: Record): Record {
    if !r.outbox.assumed || r.outbox.reported == "" then r
    else r.(outbox := r.outbox.(reported := "", assumed := false, forgotten := true))
  }

  function MarkReported(r: Record): Record {
    r.(outbox := r.outbox.(reported := OutcomeFingerprint(r), earned := true, assumed := false))
  }

  function QueueFailure(r: Record, maxAttempts: int, now: int): Record {
    var ceiling := if maxAttempts <= 0 then DEFAULT_REPORT_MAX_ATTEMPTS else maxAttempts;
    var tries := r.outbox.attempts + 1;
    if r.outbox.pending.None? then r
    else if tries < ceiling then r.(outbox := r.outbox.(attempts := tries))
    else
      var lost := r.outbox.pending.value;
      var filed := r.outbox.quarantined + [Quarantined(lost.status, TrimSpace(lost.target), now, tries)];
      r.(outbox := Outbox(None, r.outbox.dropped, 0, filed, OutcomeFingerprint(r), false, false, r.outbox.forgotten))
  }

  function AcceptPlanFloor(r: Record, generated: Option<int>): Record {
    if generated.Some? && (r.planFloor.None? || generated.value > r.planFloor.value)
    then r.(planFloor := generated) else r
  }

  /** Loading: a marker or a terminal phase with no terminal transition ever counted was written by a build that
      had no counter, and its outcome is assumed reported. */
  function Reload(r: Record): Record {
    var o := r.outbox;
    var legacy := r.terminalSeq == 0 && !o.forgotten;
    if legacy && o.reported != "" && !o.assumed && !o.earned then
      r.(outbox := o.(assumed := true))
    else if legacy && o.reported == "" && o.pending.None? && OutcomeFingerprint(r) != "" then
      r.(outbox := o.(reported := OutcomeFingerprint(r), assumed := true))
    else r
  }

  // ---- what every journal this build writes satisfies ----

  /** The string ends in a bar and the decimal form of q. */
  ghost predicate EndsWithSeq(s: string, q: nat) {
    exists front: string :: s == front + "|" + Itoa(q)
  }

  ghost predicate WellFormed(r: Record) {
    && r.phase !in {Observing, PendingReboot, Unrecoverable}
    && (r.phase in {Idle, Verified} ==> r.attempt.inFlightSince.None?)
    && (r.phase == Idle ==> r.attempt.startedAt.None?)
    && (r.phase != Idle ==> !Blank(r.attempt.target) && r.attempt.startedAt.Some?)
    && (forall k :: k in r.poisoned ==> !Blank(k))
    && (ReportablePhase(r.phase) ==> r.terminalSeq > 0)
    && MarkerBehind(r.outbox.reported, r.terminalSeq)
  }

  /** A reported marker was a fingerprint of a counter value no later than the current one. */
  ghost predicate MarkerBehind(marker: string, counter: nat) {
    marker == "" || exists q: nat :: 0 < q <= counter && EndsWithSeq(marker, q)
  }

  lemma LastBar(front: string, digits: string)
    requires AllDigits(digits)
    ensures var s := front + "|" + digits;
      s[|front|] == '|' && forall p :: |front| < p < |s| ==> s[p] != '|'
  {
    var s := front + "|" + digits;
    forall p | |front| < p < |s| ensures s[p] != '|' {
      assert s[p] == digits[p - |front| - 1];
    }
  }

  /** What follows the last bar is determined, so the counter can be read back off the string. */
  lemma EndsWithSeqUnique(s: string, a: nat, b: nat)
    requires EndsWithSeq(s, a) && EndsWithSeq(s, b)
    ensures a == b
  {
    var f :| s == f + "|" + Itoa(a);
    var g :| s == g + "|" + Itoa(b);
    LastBar(f, Itoa(a));
    LastBar(g, Itoa(b));
    assert s[|f| + 1..] == Itoa(a) && s[|g| + 1..] == Itoa(b);
    ItoaInjective(a, b);
  }

  lemma FingerprintEnds(r: Record)
    requires ReportablePhase(r.phase)
    ensures EndsWithSeq(OutcomeFingerprint(r), r.terminalSeq)
    ensures OutcomeFingerprint(r) != ""
  {
    if r.phase == Failed {
      var front := PhaseName(r.phase) + "|" + r.attempt.target + "|" + Itoa(FailureCount(r, r.attempt.target));
      assert OutcomeFingerprint(r) == front + "|" + Itoa(r.terminalSeq);
    } else {
      var front := PhaseName(r.phase) + "|" + r.attempt.target;
      assert OutcomeFingerprint(r) == front + "|" + Itoa(r.terminalSeq);
    }
  }

  /** A terminal phase entered from another phase is owed to the fleet, whatever was reported before. */
  lemma EntryIsOwed(r: Record, p: Phase, now: int)
    requires WellFormed(r) && ReportablePhase(p) && r.phase != p
    ensures OwesOutcome(Enter(r, p, now))
  {
    var e := Enter(r, p, now);
    FingerprintEnds(e);
    if e.outbox.reported == OutcomeFingerprint(e) {
      var q: nat :| 0 < q <= r.terminalSeq && EndsWithSeq(r.outbox.reported, q);
      EndsWithSeqUnique(r.outbox.reported, q, e.terminalSeq);
    }
  }

  /** Reloading changes nothing this build wrote. */
  lemma ReloadIsIdentity(r: Record)
    requires WellFormed(r)
    ensures Reload(r) == r
  {
    if r.outbox.reported != "" {
      var q: nat :| 0 < q <= r.terminalSeq && EndsWithSeq(r.outbox.reported, q);
    }
  }

  // ---- every sequence of journal operations ----

  datatype Op =
    | OpBegin(target: string, from: string, now: int)
    | OpBeginRollback(target: string, from: string, now: int)
    | OpRefuse(version: string, why: Poison)
    | OpEnter(phase: Phase, now: int)
    | OpWait(note: WaitNote)
    | OpFailure(failure: FailureNote, maxAttempts: int, now: int)
    | OpSuccess(now: int)
    | OpPendingIfFree(report: Report)
    | OpPending(report: Report)
    | OpClearPending
    | OpClearQueueFailures
    | OpForgetAssumed
    | OpReported
    | OpQueueFailure(maxAttempts: int, now: int)
    | OpPlanFloor(generated: Option<int>)

  function Apply(r: Record, op: Op): Record {
    match op
    case OpBegin(t, f, now) => Begin(r, t, f, now)
    case OpBeginRollback(t, f, now) => BeginRollback(r, t, f, now)
    case OpRefuse(v, why) => Refuse(r, v, why)
    case OpEnter(p, now) => Enter(r, p, now)
    case OpWait(note) => RecordWait(r, note)
    case OpFailure(note, maxAttempts, now) => RecordFailure(r, note, maxAttempts, now)
    case OpSuccess(now) => RecordSuccess(r, now)
    case OpPendingIfFree(report) => MarkPendingIfFree(r, report)
    case OpPending(report) => MarkPending(r, report)
    case OpClearPending => ClearPending(r)
    case OpClearQueueFailures => ClearQueueFailures(r)
    case OpForgetAssumed => ForgetAssumed(r)
    case OpReported => MarkReported(r)
    case OpQueueFailure(maxAttempts, now) => QueueFailure(r, maxAttempts, now)
    case OpPlanFloor(generated) => AcceptPlanFloor(r, generated)
  }

  function ApplyAll(r: Record, ops: seq<Op>): Record {
    if ops == [] then r else Apply(ApplyAll(r, ops[..|ops| - 1]), ops[|ops| - 1])
  }

  lemma CounterStep(r: Record, op: Op)
    ensures r.terminalSeq <= Apply(r, op).terminalSeq
    ensures ReportablePhase(Apply(r, op).phase) && Apply(r, op).phase != r.phase ==>
            Apply(r, op).terminalSeq == r.terminalSeq + 1
  {
  }

  lemma {:induction false} CounterNeverFalls(r: Record, ops: seq<Op>, k: nat)
    requires k <= |ops|
    ensures ApplyAll(r, ops[..k]).terminalSeq <= ApplyAll(r, ops).terminalSeq
  {
    if k < |ops| {
      var front := ops[..|ops| - 1];
      CounterNeverFalls(r, front, k);
      assert front[..k] == ops[..k];
      CounterStep(ApplyAll(r, front), ops[|ops| - 1]);
    } else {
      assert ops[..k] == ops;
    }
  }

  lemma FingerprintsDiffer(a: Record, b: Record)
    requires ReportablePhase(a.phase) && a.terminalSeq > b.terminalSeq
    ensures OutcomeFingerprint(a) != OutcomeFingerprint(b)
  {
    FingerprintEnds(a);
    if ReportablePhase(b.phase) && OutcomeFingerprint(a) == OutcomeFingerprint(b) {
      FingerprintEnds(b);
      EndsWithSeqUnique(OutcomeFingerprint(a), a.terminalSeq, b.terminalSeq);
    }
  }

  /** In every history of operations, an operation that moves the journal into a terminal phase from another
      phase leaves a fingerprint different from every earlier one. */
  lemma EntryFingerprintIsNew(r: Record, ops: seq<Op>, op: Op, k: nat)
    requires k <= |ops|
    requires ReportablePhase(Apply(ApplyAll(r, ops), op).phase)
    requires Apply(ApplyAll(r, ops), op).phase != ApplyAll(r, ops).phase
    ensures OutcomeFingerprint(Apply(ApplyAll(r, ops), op)) != OutcomeFingerprint(ApplyAll(r, ops[..k]))
  {
    CounterNeverFalls(r, ops, k);
    CounterStep(ApplyAll(r, ops), op);
    FingerprintsDiffer(Apply(ApplyAll(r, ops), op), ApplyAll(r, ops[..k]));
  }

  // ---- giving up on an outcome that cannot be queued ----

  function QueueFailures(r: Record, times: seq<int>): Record {
    if times == [] then r
    else QueueFailure(QueueFailures(r, times[..|times| - 1]), DEFAULT_REPORT_MAX_ATTEMPTS, times[|times| - 1])
  }

  lemma {:induction false} FewerThanTenHold(r: Record, times: seq<int>)
    requires r.outbox.pending.Some? && r.outbox.attempts == 0 && |times| < DEFAULT_REPORT_MAX_ATTEMPTS
    ensures QueueFailures(r, times) == r.(outbox := r.outbox.(attempts := |times|))
  {
    if times != [] {
      FewerThanTenHold(r, times[..|times| - 1]);
    }
  }

  /** Nine consecutive failures leave the outcome held; the tenth always releases the device, files the outcome
      as quarantined, and leaves nothing owed. */
  lemma TenthFailureReleases(r: Record, times: seq<int>)
    requires r.outbox.pending.Some? && r.outbox.attempts == 0 && |times| == DEFAULT_REPORT_MAX_ATTEMPTS
    ensures QueueFailures(r, times[..9]).outbox.pending == r.outbox.pending
    ensures var after := QueueFailures(r, times);
      && after.outbox.pending.None? && after.outbox.attempts == 0 && !OwesOutcome(after)
      && after.outbox.quarantined == r.outbox.quarantined
           + [Quarantined(r.outbox.pending.value.status, TrimSpace(r.outbox.pending.value.target), times[9], 10)]
      && after == r.(outbox := after.outbox)
  {
    FewerThanTenHold(r, times[..9]);
    var nine := QueueFailures(r, times[..9]);
    assert QueueFailures(r, times) == QueueFailure(nine, DEFAULT_REPORT_MAX_ATTEMPTS, times[9]);
    assert OutcomeFingerprint(QueueFailures(r, times)) == OutcomeFingerprint(nine);
  }

  // ---- the object ----

  class Journal {
    var attempt: Attempt
    var phase: Phase
    var terminalSeq: nat
    var failures: map<string, nat>
    var poisoned: map<string, Poison>
    var lastWait: WaitNote
    var lastFailure: FailureNote
    var planFloor: Option<int>
    var outbox: Outbox

    function View(): Record
      reads this
    {
      Record(attempt, phase, terminalSeq, failures, poisoned, lastWait, lastFailure, planFloor, outbox)
    }

    /** A journal holding r: the load of a file, or the deep copy a rehearsal runs against. */
    constructor (r: Record)
      ensures View() == r
    {
      attempt, phase, terminalSeq := r.attempt, r.phase, r.terminalSeq;
      failures, poisoned := r.failures, r.poisoned;
      lastWait, lastFailure, planFloor, outbox := r.lastWait, r.lastFailure, r.planFloor, r.outbox;
    }

    method BeginAttempt(target: string, from: string, now: int, kind: Kind)
      modifies this`attempt, this`phase
      ensures View() == if kind == Update then Begin(old(View()), target, from, now)
                        else BeginRollback(old(View()), target, from, now)
    {
      attempt, phase := Attempt(target, from, Some(now), None, kind), Verified;
    }

    method RefuseVersion(version: string, why: Poison)
      modifies this`poisoned
      ensures View() == Refuse(old(View()), version, why)
    {
      var v := TrimSpace(version);
      if v != "" {
        poisoned := poisoned[v := why];
      }
    }

    method EnterPhase(p: Phase, now: int)
      modifies this`terminalSeq, this`attempt, this`phase
      ensures View() == Enter(old(View()), p, now)
    {
      if phase != p && ReportablePhase(p) {
        terminalSeq := terminalSeq + 1;
      }
      if InFlightPhase(p) && attempt.inFlightSince.None? {
        attempt := attempt.(inFlightSince := Some(now));
      }
      phase := p;
    }

    method CountFailure(note: FailureNote, maxAttempts: int, now: int) returns (gaveUp: bool)
      modifies this
      ensures View() == RecordFailure(old(View()), note, maxAttempts, now)
      ensures gaveUp <==> !Blank(attempt.target) && failures[TrimSpace(attempt.target)] >= Ceiling(maxAttempts)
    {
      var v := TrimSpace(attempt.target);
      lastFailure := note;
      if v == "" {
        EnterPhase(Failed, now);
        return false;
      }
      failures := failures[v := (if v in failures then failures[v] else 0) + 1];
      EnterPhase(Failed, now);
      if failures[v] < Ceiling(maxAttempts) {
        return false;
      }
      poisoned := poisoned[v := FailedTimes(failures[v])];
      return true;
    }

    method CountSuccess(now: int)
      modifies this
      ensures View() == RecordSuccess(old(View()), now)
    {
      var v := TrimSpace(attempt.target);
      if v != "" {
        failures := failures - {v};
      }
      EnterPhase(if attempt.kind == Rollback then RolledBack else Completed, now);
    }

    method HoldReport(report: Report) returns (held: bool)
      modifies this`outbox
      ensures View() == MarkPendingIfFree(old(View()), report)
      ensures held <==> old(outbox.pending).None?
    {
      if outbox.pending.Some? {
        outbox := outbox.(dropped := outbox.dropped + 1);
        return false;
      }
      outbox := outbox.(pending := Some(report));
      return true;
    }

    method CountQueueFailure(maxAttempts: int, now: int) returns (gaveUp: bool)
      modifies this`outbox
      ensures View() == QueueFailure(old(View()), maxAttempts, now)
      ensures gaveUp <==> old(outbox.pending).Some? && outbox.pending.None?
    {
      if outbox.pending.None? {
        return false;
      }
      var ceiling := if maxAttempts <= 0 then DEFAULT_REPORT_MAX_ATTEMPTS else maxAttempts;
      var tries := outbox.attempts + 1;
      if tries < ceiling {
        outbox := outbox.(attempts := tries);
        return false;
      }
      var lost := outbox.pending.value;
      var filed := outbox.quarantined + [Quarantined(lost.status, TrimSpace(lost.target), now, tries)];
      outbox := Outbox(None, outbox.dropped, 0, filed, OutcomeFingerprint(View()), false, false, outbox.forgotten);
      return true;
    }
  }
}
