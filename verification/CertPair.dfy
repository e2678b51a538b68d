/** Replacing a certificate and its key, two files, as one step (certreload/pair_update.go, certreload/reload.go). A
    journal beside them holds the previous pair while an update is in progress. Which certificates go with which
    keys is the parameter `matches`. */
module CertPair {
  import opened Text

  type Blob = string

  /** One directory entry: what a reader sees, and what a power loss may bring back because the last replacements
      were renamed into place but never flushed. */
  datatype Entry<T(==)> = Entry(now: T, unflushed: set<T>)

  datatype Note = Absent | Idle | Prepared(cert: Blob, key: Blob)

  datatype Disk = Disk(journal: Entry<Note>, cert: Entry<Option<Blob>>, key: Entry<Option<Blob>>)

  /** Everything the entry may turn out to hold. */
  function Possible<T>(e: Entry<T>): set<T> { {e.now} + e.unflushed }

  /** A durable write renames, then flushes. It can fail before the rename, or between the two. */
  datatype WriteResult = Wrote | Unflushed | Untouched

  function WriteStates<T>(e: Entry<T>, x: T, w: WriteResult): seq<Entry<T>> {
    match w
    case Wrote => [Entry(x, Possible(e)), Entry(x, {})]
    case Unflushed => [Entry(x, Possible(e))]
    case Untouched => []
  }

  // ---- runs as the disk states they go through ----

  /** The successive states of the disk, a crash may stop after any of them, and whether the call reports success. */
  datatype Run = Run(states: seq<Disk>, ok: bool)

  function EndOf(d: Disk, states: seq<Disk>): Disk {
    if states == [] then d else states[|states| - 1]
  }

  function AndThen(first: Run, second: Run): Run { Run(first.states + second.states, second.ok) }

  lemma EndOfAndThen(d: Disk, s: seq<Disk>, t: seq<Disk>)
    ensures EndOf(d, s + t) == EndOf(EndOf(d, s), t)
  {
  }

  function OnCert(d: Disk, states: seq<Entry<Option<Blob>>>): seq<Disk> {
    seq(|states|, i requires 0 <= i < |states| => d.(cert := states[i]))
  }

  function OnKey(d: Disk, states: seq<Entry<Option<Blob>>>): seq<Disk> {
    seq(|states|, i requires 0 <= i < |states| => d.(key := states[i]))
  }

  function OnJournal(d: Disk, states: seq<Entry<Note>>): seq<Disk> {
    seq(|states|, i requires 0 <= i < |states| => d.(journal := states[i]))
  }

  function WriteNote(d: Disk, note: Note, w: WriteResult): Run {
    Run(OnJournal(d, WriteStates(d.journal, note, w)), w == Wrote)
  }

  // ---- recovery ----

  /** What the system answers about one of the two files during recovery. */
  datatype FileAnswers = FileAnswers(irregular: bool, readable: bool, flushed: bool, write: WriteResult)

  datatype RecoveryAnswers = RecoveryAnswers(journalReadable: bool, cert: FileAnswers, key: FileAnswers, clear: WriteResult)

  predicate AlreadyHolds(e: Entry<Option<Blob>>, blob: Blob, a: FileAnswers) { a.readable && e.now == Some(blob) }

  /** A file that already reads right is only flushed. */
  function RestoreStates(e: Entry<Option<Blob>>, blob: Blob, a: FileAnswers): seq<Entry<Option<Blob>>> {
    if a.irregular then []
    else if AlreadyHolds(e, blob, a) then (if a.flushed then [Entry(e.now, {})] else [])
    else WriteStates(e, Some(blob), a.write)
  }

  predicate RestoreOk(e: Entry<Option<Blob>>, blob: Blob, a: FileAnswers) {
    !a.irregular && if AlreadyHolds(e, blob, a) then a.flushed else a.write == Wrote
  }

  function RestoreCert(d: Disk, blob: Blob, a: FileAnswers): Run {
    Run(OnCert(d, RestoreStates(d.cert, blob, a)), RestoreOk(d.cert, blob, a))
  }

  function RestoreKey(d: Disk, blob: Blob, a: FileAnswers): Run {
    Run(OnKey(d, RestoreStates(d.key, blob, a)), RestoreOk(d.key, blob, a))
  }

  predicate JournalUsable(d: Disk, matches: (Blob, Blob) -> bool, a: RecoveryAnswers) {
    a.journalReadable && (d.journal.now.Prepared? ==> matches(d.journal.now.cert, d.journal.now.key))
  }

  /** Both files are put back from the journal before the journal is cleared. */
  function Restoration(d: Disk, cert: Blob, key: Blob, a: RecoveryAnswers): Run {
    var first := RestoreCert(d, cert, a.cert);
    if !first.ok then first
    else
      var both := AndThen(first, RestoreKey(EndOf(d, first.states), key, a.key));
      if !both.ok then both else AndThen(both, WriteNote(EndOf(d, both.states), Idle, a.clear))
  }

  function Recovery(d: Disk, matches: (Blob, Blob) -> bool, a: RecoveryAnswers): Run {
    if !JournalUsable(d, matches, a) then Run([], false)
    else if !d.journal.now.Prepared? then Run([], true)
    else Restoration(d, d.journal.now.cert, d.journal.now.key, a)
  }

  // ---- update ----

  /** The caller's update: the states it puts the two files through, and whether it reports success. */
  datatype Callback = Callback(states: seq<(Entry<Option<Blob>>, Entry<Option<Blob>>)>, ok: bool)

  datatype UpdateAnswers = UpdateAnswers(
    before: RecoveryAnswers, readable: bool, prepare: WriteResult, loadable: bool, after: RecoveryAnswers, commit: WriteResult)

  predicate Loads(d: Disk, matches: (Blob, Blob) -> bool) {
    d.cert.now.Some? && d.key.now.Some? && matches(d.cert.now.value, d.key.now.value)
  }

  function CallbackStates(d: Disk, cb: Callback): seq<Disk> {
    seq(|cb.states|, i requires 0 <= i < |cb.states| => d.(cert := cb.states[i].0, key := cb.states[i].1))
  }

  /** The update proper, with the previous pair safely in the journal. */
  function Replacement(d: Disk, matches: (Blob, Blob) -> bool, a: UpdateAnswers, cb: Callback): Run {
    var states := CallbackStates(d, cb);
    var done := EndOf(d, states);
    if cb.ok && a.loadable && Loads(done, matches)
    then AndThen(Run(states, true), WriteNote(done, Idle, a.commit))
    else Run(states + Recovery(done, matches, a.after).states, false)
  }

  /** From a disk that recovery has left alone or repaired. */
  function Guarded(d: Disk, matches: (Blob, Blob) -> bool, a: UpdateAnswers, cb: Callback): Run {
    if !a.readable || !Loads(d, matches) then Run([], false)
    else
      var prepared := WriteNote(d, Prepared(d.cert.now.value, d.key.now.value), a.prepare);
      if !prepared.ok then prepared else AndThen(prepared, Replacement(EndOf(d, prepared.states), matches, a, cb))
  }

  function Update(d: Disk, matches: (Blob, Blob) -> bool, a: UpdateAnswers, cb: Callback): Run {
    var recovered := Recovery(d, matches, a.before);
    if !recovered.ok then recovered else AndThen(recovered, Guarded(EndOf(d, recovered.states), matches, a, cb))
  }

  // ---- what every state on the way keeps ----

  /** Whatever a power loss brings back, the journal holds a matching pair. */
  ghost predicate Journaled(d: Disk, matches: (Blob, Blob) -> bool) {
    forall j :: j in Possible(d.journal) ==> j.Prepared? && matches(j.cert, j.key)
  }

  /** Whatever a power loss brings back, the files are this pair. */
  ghost predicate FilesAre(d: Disk, cert: Blob, key: Blob) {
    Possible(d.cert) == {Some(cert)} && Possible(d.key) == {Some(key)}
  }

  /** The files are one matching pair for certain, and a journal that says otherwise is not in force. */
  ghost predicate Settled(d: Disk, matches: (Blob, Blob) -> bool) {
    && Loads(d, matches) && FilesAre(d, d.cert.now.value, d.key.now.value)
    && (forall j :: j in Possible(d.journal) && j.Prepared? ==> matches(j.cert, j.key))
    && (d.journal.now.Prepared? ==> d.journal.now == Prepared(d.cert.now.value, d.key.now.value))
  }

  ghost predicate Sound(d: Disk, matches: (Blob, Blob) -> bool) { Journaled(d, matches) || Settled(d, matches) }

  /** A power loss: every entry turns out to hold one of its possible contents. */
  ghost predicate Rebooted(d: Disk, e: Disk) {
    && e.journal.unflushed == {} && e.cert.unflushed == {} && e.key.unflushed == {}
    && e.journal.now in Possible(d.journal) && e.cert.now in Possible(d.cert) && e.key.now in Possible(d.key)
  }

  /** The pairs that a completed recovery could leave, whatever a power loss brings back first. */
  ghost predicate CanLeave(d: Disk, cert: Blob, key: Blob) {
    || Prepared(cert, key) in Possible(d.journal)
    || (Some(cert) in Possible(d.cert) && Some(key) in Possible(d.key)
        && exists j :: j in Possible(d.journal) && !j.Prepared?)
  }

  type Pair = (Blob, Blob)

  /** Sound, and no pair but these can come out. */
  ghost predicate Keeps(d: Disk, matches: (Blob, Blob) -> bool, pairs: set<Pair>) {
    Sound(d, matches) && forall c, k :: CanLeave(d, c, k) ==> (c, k) in pairs
  }

  ghost predicate AllKeep(states: seq<Disk>, matches: (Blob, Blob) -> bool, pairs: set<Pair>) {
    forall i :: 0 <= i < |states| ==> Keeps(states[i], matches, pairs)
  }

  lemma EndKeeps(d: Disk, states: seq<Disk>, matches: (Blob, Blob) -> bool, pairs: set<Pair>)
    requires Keeps(d, matches, pairs) && AllKeep(states, matches, pairs)
    ensures Keeps(EndOf(d, states), matches, pairs)
  {
  }

  // ---- single steps ----

  /** While only matching pairs can be in the journal the two files do not matter. */
  lemma FilesDoNotMatter(d: Disk, e: Disk, matches: (Blob, Blob) -> bool, pairs: set<Pair>)
    requires Keeps(d, matches, pairs) && Journaled(d, matches) && e.journal == d.journal
    ensures Keeps(e, matches, pairs) && Journaled(e, matches)
  {
    assert Journaled(e, matches);
    forall c, k | CanLeave(e, c, k) ensures (c, k) in pairs { assert CanLeave(d, c, k); }
  }

  /** Writing the journal's own pair over files that already are that pair changes nothing that matters. */
  lemma SameFiles(d: Disk, e: Disk, matches: (Blob, Blob) -> bool, pairs: set<Pair>)
    requires Keeps(d, matches, pairs) && Settled(d, matches) && e.journal == d.journal
    requires Possible(e.cert) == Possible(d.cert) && Possible(e.key) == Possible(d.key)
    ensures Keeps(e, matches, pairs) && Settled(e, matches)
  {
    assert e.cert.now in Possible(e.cert) && e.key.now in Possible(e.key);
    assert Settled(e, matches);
    forall c, k | CanLeave(e, c, k) ensures (c, k) in pairs { assert CanLeave(d, c, k); }
  }

  /** One file being restored: from the journal's blob for certain, or only seen in this shape. */
  lemma RestoreStatesShape(e: Entry<Option<Blob>>, blob: Blob, a: FileAnswers)
    ensures var states := RestoreStates(e, blob, a);
            && (forall i :: 0 <= i < |states| ==> states[i].now == Some(blob))
            && (Possible(e) == {Some(blob)} ==> forall i :: 0 <= i < |states| ==> Possible(states[i]) == {Some(blob)})
            && (RestoreOk(e, blob, a) ==> states != [] && Possible(states[|states| - 1]) == {Some(blob)})
  {
  }

  ghost predicate InForce(d: Disk, matches: (Blob, Blob) -> bool, cert: Blob, key: Blob, pairs: set<Pair>) {
    Keeps(d, matches, pairs) && d.journal.now == Prepared(cert, key) && matches(cert, key)
  }

  /** Changing only the certificate, and only to the journaled one, is safe at every stage of recovery. */
  lemma CertStepKeeps(d: Disk, e: Disk, matches: (Blob, Blob) -> bool, cert: Blob, key: Blob, pairs: set<Pair>)
    requires InForce(d, matches, cert, key, pairs) && e == d.(cert := e.cert)
    requires Possible(d.cert) == {Some(cert)} ==> Possible(e.cert) == {Some(cert)}
    ensures InForce(e, matches, cert, key, pairs)
  {
    if Journaled(d, matches) { FilesDoNotMatter(d, e, matches, pairs); } else { SameFiles(d, e, matches, pairs); }
  }

  lemma KeyStepKeeps(d: Disk, e: Disk, matches: (Blob, Blob) -> bool, cert: Blob, key: Blob, pairs: set<Pair>)
    requires InForce(d, matches, cert, key, pairs) && e == d.(key := e.key)
    requires Possible(d.key) == {Some(key)} ==> Possible(e.key) == {Some(key)}
    ensures InForce(e, matches, cert, key, pairs)
  {
    if Journaled(d, matches) { FilesDoNotMatter(d, e, matches, pairs); } else { SameFiles(d, e, matches, pairs); }
  }

  lemma RestoreCertKeeps(d: Disk, matches: (Blob, Blob) -> bool, cert: Blob, key: Blob, pairs: set<Pair>, a: FileAnswers)
    requires InForce(d, matches, cert, key, pairs)
    ensures var r := RestoreCert(d, cert, a);
            && AllKeep(r.states, matches, pairs) && InForce(EndOf(d, r.states), matches, cert, key, pairs)
            && (r.ok ==> Possible(EndOf(d, r.states).cert) == {Some(cert)})
  {
    var r := RestoreCert(d, cert, a);
    RestoreStatesShape(d.cert, cert, a);
    forall i | 0 <= i < |r.states| ensures InForce(r.states[i], matches, cert, key, pairs) {
      CertStepKeeps(d, r.states[i], matches, cert, key, pairs);
    }
  }

  lemma RestoreKeyKeeps(d: Disk, matches: (Blob, Blob) -> bool, cert: Blob, key: Blob, pairs: set<Pair>, a: FileAnswers)
    requires InForce(d, matches, cert, key, pairs)
    ensures var r := RestoreKey(d, key, a);
            && AllKeep(r.states, matches, pairs) && InForce(EndOf(d, r.states), matches, cert, key, pairs)
            && EndOf(d, r.states).cert == d.cert
            && (r.ok ==> Possible(EndOf(d, r.states).key) == {Some(key)})
  {
    var r := RestoreKey(d, key, a);
    RestoreStatesShape(d.key, key, a);
    forall i | 0 <= i < |r.states| ensures InForce(r.states[i], matches, cert, key, pairs) {
      KeyStepKeeps(d, r.states[i], matches, cert, key, pairs);
    }
  }

  /** With the files one matching pair for certain, the journal may be cleared, flushed or not. */
  lemma ClearKeeps(d: Disk, matches: (Blob, Blob) -> bool, cert: Blob, key: Blob, pairs: set<Pair>, w: WriteResult)
    requires Keeps(d, matches, pairs) && FilesAre(d, cert, key) && matches(cert, key) && (cert, key) in pairs
    ensures AllKeep(WriteNote(d, Idle, w).states, matches, pairs)
  {
    var r := WriteNote(d, Idle, w);
    assert d.cert.now in Possible(d.cert) && d.key.now in Possible(d.key);
    forall i | 0 <= i < |r.states| ensures Keeps(r.states[i], matches, pairs) {
      var e := r.states[i];
      assert Possible(e.journal) <= Possible(d.journal) + {Idle};
      assert Settled(e, matches);
      forall c, k | CanLeave(e, c, k) ensures (c, k) in pairs {
        if Prepared(c, k) in Possible(d.journal) { assert CanLeave(d, c, k); }
      }
    }
  }

  // ---- recovery ----

  lemma RestorationKeeps(d: Disk, matches: (Blob, Blob) -> bool, cert: Blob, key: Blob, pairs: set<Pair>, a: RecoveryAnswers)
    requires InForce(d, matches, cert, key, pairs)
    ensures AllKeep(Restoration(d, cert, key, a).states, matches, pairs)
    ensures Restoration(d, cert, key, a).ok ==>
              var e := EndOf(d, Restoration(d, cert, key, a).states);
              FilesAre(e, cert, key) && e.journal == Entry(Idle, {})
  {
    RestoreCertKeeps(d, matches, cert, key, pairs, a.cert);
    var first := RestoreCert(d, cert, a.cert);
    if first.ok {
      var d1 := EndOf(d, first.states);
      RestoreKeyKeeps(d1, matches, cert, key, pairs, a.key);
      var second := RestoreKey(d1, key, a.key);
      EndOfAndThen(d, first.states, second.states);
      if second.ok {
        var d2 := EndOf(d1, second.states);
        assert CanLeave(d2, cert, key);
        ClearKeeps(d2, matches, cert, key, pairs, a.clear);
        EndOfAndThen(d, first.states + second.states, WriteNote(d2, Idle, a.clear).states);
      }
    }
  }

  /** Recovery is safe at every instant, and when it completes the files are for certain one matching pair, one that
      was already the only kind of pair that could come out. */
  lemma RecoveryKeeps(d: Disk, matches: (Blob, Blob) -> bool, pairs: set<Pair>, a: RecoveryAnswers)
    requires Keeps(d, matches, pairs)
    ensures AllKeep(Recovery(d, matches, a).states, matches, pairs)
    ensures Recovery(d, matches, a).ok ==>
              var e := EndOf(d, Recovery(d, matches, a).states);
              Settled(e, matches) && !e.journal.now.Prepared? && (e.cert.now.value, e.key.now.value) in pairs
  {
    if JournalUsable(d, matches, a) {
      if d.journal.now.Prepared? {
        var cert, key := d.journal.now.cert, d.journal.now.key;
        RestorationKeeps(d, matches, cert, key, pairs, a);
        var e := EndOf(d, Restoration(d, cert, key, a).states);
        assert CanLeave(d, cert, key);
        if Restoration(d, cert, key, a).ok {
          assert e.cert.now in Possible(e.cert) && e.key.now in Possible(e.key);
        }
      } else {
        assert CanLeave(d, d.cert.now.value, d.key.now.value);
      }
    }
  }

  // ---- update ----

  /** What the caller must provide: when it reports success, what it wrote has reached the disk. */
  predicate Durable(cb: Callback) {
    cb.ok && cb.states != [] ==>
      var last := cb.states[|cb.states| - 1];
      last.0.unflushed <= {last.0.now} && last.1.unflushed <= {last.1.now}
  }

  /** The pair the caller's update asks to install: what it reports to have written, if that is a matching pair. */
  function Installed(matches: (Blob, Blob) -> bool, cb: Callback): set<Pair> {
    if !cb.ok || cb.states == [] then {}
    else
      var (cert, key) := cb.states[|cb.states| - 1];
      if cert.now.Some? && key.now.Some? && matches(cert.now.value, key.now.value)
      then {(cert.now.value, key.now.value)} else {}
  }

  lemma PrepareKeeps(d: Disk, matches: (Blob, Blob) -> bool, pairs: set<Pair>, w: WriteResult)
    requires Keeps(d, matches, pairs) && Settled(d, matches) && !d.journal.now.Prepared?
    ensures var r := WriteNote(d, Prepared(d.cert.now.value, d.key.now.value), w);
            && AllKeep(r.states, matches, pairs)
            && (r.ok ==> Journaled(EndOf(d, r.states), matches))
  {
    var r := WriteNote(d, Prepared(d.cert.now.value, d.key.now.value), w);
    assert CanLeave(d, d.cert.now.value, d.key.now.value);
    forall i | 0 <= i < |r.states| ensures Keeps(r.states[i], matches, pairs) {
      var e := r.states[i];
      assert Possible(e.journal) <= Possible(d.journal) + {Prepared(d.cert.now.value, d.key.now.value)};
      assert Settled(e, matches);
      forall c, k | CanLeave(e, c, k) ensures (c, k) in pairs {
        if (c, k) != (d.cert.now.value, d.key.now.value) { assert CanLeave(d, c, k); }
      }
    }
  }

  lemma KeepsMore(states: seq<Disk>, matches: (Blob, Blob) -> bool, pairs: set<Pair>, more: set<Pair>)
    requires AllKeep(states, matches, pairs) && pairs <= more
    ensures AllKeep(states, matches, more)
  {
  }

  lemma CallbackKeeps(d: Disk, matches: (Blob, Blob) -> bool, pairs: set<Pair>, cb: Callback)
    requires Keeps(d, matches, pairs) && Journaled(d, matches)
    ensures AllKeep(CallbackStates(d, cb), matches, pairs)
    ensures Keeps(EndOf(d, CallbackStates(d, cb)), matches, pairs) && Journaled(EndOf(d, CallbackStates(d, cb)), matches)
  {
    var states := CallbackStates(d, cb);
    forall i | 0 <= i < |states| ensures Keeps(states[i], matches, pairs) && Journaled(states[i], matches) {
      FilesDoNotMatter(d, states[i], matches, pairs);
    }
  }

  ghost predicate Committed(d: Disk, pair: Pair) {
    FilesAre(d, pair.0, pair.1) && d.journal == Entry(Idle, {})
  }

  /** With the old pair journaled, the caller may do anything to the two files. */
  lemma ReplacementKeeps(
    d: Disk, matches: (Blob, Blob) -> bool, cert: Blob, key: Blob, pairs: set<Pair>, a: UpdateAnswers, cb: Callback)
    requires Keeps(d, matches, pairs) && Journaled(d, matches) && Durable(cb)
    requires FilesAre(d, cert, key) && (cert, key) in pairs
    ensures AllKeep(Replacement(d, matches, a, cb).states, matches, pairs + Installed(matches, cb))
    ensures Replacement(d, matches, a, cb).ok ==>
              exists pair :: (pair in if cb.states == [] then {(cert, key)} else Installed(matches, cb))
                             && matches(pair.0, pair.1) && Committed(EndOf(d, Replacement(d, matches, a, cb).states), pair)
  {
    var states := CallbackStates(d, cb);
    var done := EndOf(d, states);
    var more := pairs + Installed(matches, cb);
    CallbackKeeps(d, matches, pairs, cb);
    KeepsMore(states, matches, pairs, more);
    assert d.cert.now in Possible(d.cert) && d.key.now in Possible(d.key);
    if cb.ok && a.loadable && Loads(done, matches) {
      var pair := (done.cert.now.value, done.key.now.value);
      assert pair in if cb.states == [] then {(cert, key)} else Installed(matches, cb);
      assert FilesAre(done, pair.0, pair.1);
      ClearKeeps(done, matches, pair.0, pair.1, more, a.commit);
      EndOfAndThen(d, states, WriteNote(done, Idle, a.commit).states);
      assert Replacement(d, matches, a, cb).ok ==> Committed(EndOf(d, Replacement(d, matches, a, cb).states), pair);
    } else {
      RecoveryKeeps(done, matches, pairs, a.after);
      KeepsMore(Recovery(done, matches, a.after).states, matches, pairs, more);
    }
  }

  ghost predicate CommitsOneOf(d: Disk, matches: (Blob, Blob) -> bool, pairs: set<Pair>) {
    exists pair :: pair in pairs && matches(pair.0, pair.1) && Committed(d, pair)
  }

  lemma GuardedKeeps(d: Disk, matches: (Blob, Blob) -> bool, pairs: set<Pair>, a: UpdateAnswers, cb: Callback)
    requires Keeps(d, matches, pairs) && Settled(d, matches) && !d.journal.now.Prepared? && Durable(cb)
    ensures AllKeep(Guarded(d, matches, a, cb).states, matches, pairs + Installed(matches, cb))
    ensures Guarded(d, matches, a, cb).ok ==>
              CommitsOneOf(EndOf(d, Guarded(d, matches, a, cb).states), matches,
                           if cb.states == [] then pairs else Installed(matches, cb))
  {
    if a.readable {
      var cert, key := d.cert.now.value, d.key.now.value;
      var prepared := WriteNote(d, Prepared(cert, key), a.prepare);
      PrepareKeeps(d, matches, pairs, a.prepare);
      KeepsMore(prepared.states, matches, pairs, pairs + Installed(matches, cb));
      if prepared.ok {
        var d1 := EndOf(d, prepared.states);
        assert CanLeave(d, cert, key);
        ReplacementKeeps(d1, matches, cert, key, pairs, a, cb);
        EndOfAndThen(d, prepared.states, Replacement(d1, matches, a, cb).states);
      }
    }
  }

  /** An update is safe at every instant, whatever the caller does to the files, and reports success only with the
      new pair committed. */
  lemma UpdateKeeps(d: Disk, matches: (Blob, Blob) -> bool, pairs: set<Pair>, a: UpdateAnswers, cb: Callback)
    requires Keeps(d, matches, pairs) && Durable(cb)
    ensures AllKeep(Update(d, matches, a, cb).states, matches, pairs + Installed(matches, cb))
    ensures Update(d, matches, a, cb).ok ==>
              CommitsOneOf(EndOf(d, Update(d, matches, a, cb).states), matches,
                           if cb.states == [] then pairs else Installed(matches, cb))
  {
    var recovered := Recovery(d, matches, a.before);
    RecoveryKeeps(d, matches, pairs, a.before);
    KeepsMore(recovered.states, matches, pairs, pairs + Installed(matches, cb));
    EndKeeps(d, recovered.states, matches, pairs);
    if recovered.ok {
      var d1 := EndOf(d, recovered.states);
      GuardedKeeps(d1, matches, pairs, a, cb);
      EndOfAndThen(d, recovered.states, Guarded(d1, matches, a, cb).states);
    }
  }

  // ---- whole runs ----

  /** A call that is cut off after `cut` of its states, or a power loss that leaves `after`. */
  datatype Event =
    | Recovers(a: RecoveryAnswers, cut: nat)
    | Updates(answers: UpdateAnswers, cb: Callback, cut: nat)
    | PowerLoss(after: Disk)

  function CutAfter(d: Disk, states: seq<Disk>, cut: nat): Disk {
    EndOf(d, if cut < |states| then states[..cut] else states)
  }

  ghost function Step(d: Disk, matches: (Blob, Blob) -> bool, event: Event): Disk {
    match event
    case Recovers(a, cut) => CutAfter(d, Recovery(d, matches, a).states, cut)
    case Updates(a, cb, cut) => CutAfter(d, Update(d, matches, a, cb).states, cut)
    case PowerLoss(after) => if Rebooted(d, after) then after else d
  }

  ghost function Play(d: Disk, matches: (Blob, Blob) -> bool, events: seq<Event>): Disk {
    if events == [] then d else Step(Play(d, matches, events[..|events| - 1]), matches, events[|events| - 1])
  }

  ghost predicate AllDurable(events: seq<Event>) {
    forall i :: 0 <= i < |events| && events[i].Updates? ==> Durable(events[i].cb)
  }

  function AskedFor(matches: (Blob, Blob) -> bool, events: seq<Event>): set<Pair> {
    if events == [] then {}
    else
      var last := events[|events| - 1];
      AskedFor(matches, events[..|events| - 1]) + if last.Updates? then Installed(matches, last.cb) else {}
  }

  lemma RebootKeeps(d: Disk, after: Disk, matches: (Blob, Blob) -> bool, pairs: set<Pair>)
    requires Keeps(d, matches, pairs) && Rebooted(d, after)
    ensures Keeps(after, matches, pairs)
  {
    if Journaled(d, matches) {
      assert Journaled(after, matches);
    } else if after.journal.now.Prepared? {
      assert Journaled(after, matches);
    } else {
      assert Settled(after, matches);
    }
    forall c, k | CanLeave(after, c, k) ensures (c, k) in pairs { assert CanLeave(d, c, k); }
  }

  lemma CutKeeps(d: Disk, states: seq<Disk>, cut: nat, matches: (Blob, Blob) -> bool, pairs: set<Pair>)
    requires Keeps(d, matches, pairs) && AllKeep(states, matches, pairs)
    ensures Keeps(CutAfter(d, states, cut), matches, pairs)
  {
  }

  lemma StepKeeps(d: Disk, matches: (Blob, Blob) -> bool, pairs: set<Pair>, event: Event)
    requires Keeps(d, matches, pairs) && (event.Updates? ==> Durable(event.cb))
    ensures Keeps(Step(d, matches, event), matches, pairs + if event.Updates? then Installed(matches, event.cb) else {})
  {
    match event
    case Recovers(a, cut) =>
      RecoveryKeeps(d, matches, pairs, a);
      CutKeeps(d, Recovery(d, matches, a).states, cut, matches, pairs);
    case Updates(a, cb, cut) =>
      UpdateKeeps(d, matches, pairs, a, cb);
      CutKeeps(d, Update(d, matches, a, cb).states, cut, matches, pairs + Installed(matches, cb));
    case PowerLoss(after) =>
      if Rebooted(d, after) { RebootKeeps(d, after, matches, pairs); }
  }

  /** Over every run of updates and recoveries, each cut off anywhere, with power losses in between: the disk stays
      sound, and only the pairs there were and the pairs asked for can ever come out. */
  lemma {:induction false} RunKeeps(d: Disk, matches: (Blob, Blob) -> bool, pairs: set<Pair>, events: seq<Event>)
    requires Keeps(d, matches, pairs) && AllDurable(events)
    ensures Keeps(Play(d, matches, events), matches, pairs + AskedFor(matches, events))
  {
    if events != [] {
      var front, last := events[..|events| - 1], events[|events| - 1];
      RunKeeps(d, matches, pairs, front);
      StepKeeps(Play(d, matches, front), matches, pairs + AskedFor(matches, front), last);
      assert pairs + AskedFor(matches, events)
          == pairs + AskedFor(matches, front) + if last.Updates? then Installed(matches, last.cb) else {};
    }
  }

  /** A matching pair on disk and no update in progress. */
  ghost predicate AtRest(d: Disk, matches: (Blob, Blob) -> bool, pair: Pair) {
    && FilesAre(d, pair.0, pair.1) && matches(pair.0, pair.1)
    && forall j :: j in Possible(d.journal) ==> !j.Prepared?
  }

  lemma AtRestKeeps(d: Disk, matches: (Blob, Blob) -> bool, pair: Pair)
    requires AtRest(d, matches, pair)
    ensures Keeps(d, matches, {pair})
  {
    assert d.cert.now in Possible(d.cert) && d.key.now in Possible(d.key) && d.journal.now in Possible(d.journal);
    assert Settled(d, matches);
  }

  /** From a matching pair, after any run: the journal holds a matching pair or the files match, and a recovery that
      completes leaves, wholly, the first pair or one that some update asked for. */
  lemma PairIsAtomic(d: Disk, matches: (Blob, Blob) -> bool, pair: Pair, events: seq<Event>, a: RecoveryAnswers)
    requires AtRest(d, matches, pair) && AllDurable(events)
    ensures var z := Play(d, matches, events);
            && ((z.journal.now.Prepared? && matches(z.journal.now.cert, z.journal.now.key)) || Loads(z, matches))
            && (Recovery(z, matches, a).ok ==>
                  var e := EndOf(z, Recovery(z, matches, a).states);
                  && Loads(e, matches) && FilesAre(e, e.cert.now.value, e.key.now.value)
                  && (e.cert.now.value, e.key.now.value) in {pair} + AskedFor(matches, events))
  {
    AtRestKeeps(d, matches, pair);
    RunKeeps(d, matches, {pair}, events);
    var z := Play(d, matches, events);
    assert z.journal.now in Possible(z.journal);
    RecoveryKeeps(z, matches, {pair} + AskedFor(matches, events), a);
  }

  /** A committed update is permanent: after it, and any later run, only its pair or a later one can come out. */
  lemma CommittedStays(
    d: Disk, matches: (Blob, Blob) -> bool, pairs: set<Pair>, a: UpdateAnswers, cb: Callback, events: seq<Event>)
    requires Keeps(d, matches, pairs) && Durable(cb) && cb.states != [] && AllDurable(events)
    requires Update(d, matches, a, cb).ok
    ensures var z := Play(EndOf(d, Update(d, matches, a, cb).states), matches, events);
            Keeps(z, matches, Installed(matches, cb) + AskedFor(matches, events))
  {
    UpdateKeeps(d, matches, pairs, a, cb);
    var e := EndOf(d, Update(d, matches, a, cb).states);
    var pair :| pair in Installed(matches, cb) && matches(pair.0, pair.1) && Committed(e, pair);
    AtRestKeeps(e, matches, pair);
    RunKeeps(e, matches, {pair}, events);
    assert {pair} + AskedFor(matches, events) == Installed(matches, cb) + AskedFor(matches, events);
  }

  // ---- why the caller must flush ----

  const WELL_FILE: FileAnswers := FileAnswers(false, true, true, Wrote)

  const WELL_RECOVERY: RecoveryAnswers := RecoveryAnswers(true, WELL_FILE, WELL_FILE, Wrote)

  const WELL: UpdateAnswers := UpdateAnswers(WELL_RECOVERY, true, Wrote, true, WELL_RECOVERY, Wrote)

  /** A callback that renames a new pair into place and reports success without flushing. */
  function Hasty(was: Pair, next: Pair): Callback {
    Callback([(Entry(Some(next.0), {Some(was.0)}), Entry(Some(next.1), {Some(was.1)}))], true)
  }

  function Resting(pair: Pair): Disk { Disk(Entry(Idle, {}), Entry(Some(pair.0), {}), Entry(Some(pair.1), {})) }

  /** Such an update commits, and a power loss then leaves the new certificate with the old key and nothing to recover
      from: the update is not safe without the flush. */
  lemma UnflushedUpdateIsNotSafe(matches: (Blob, Blob) -> bool, was: Pair, next: Pair)
    requires matches(was.0, was.1) && matches(next.0, next.1) && !matches(next.0, was.1)
    ensures var d, cb := Resting(was), Hasty(was, next);
            var e := EndOf(d, Update(d, matches, WELL, cb).states);
            var after := Resting((next.0, was.1));
            && AtRest(d, matches, was) && !Durable(cb) && Update(d, matches, WELL, cb).ok && Rebooted(e, after)
            && !Loads(after, matches) && !after.journal.now.Prepared?
  {
    var d, cb := Resting(was), Hasty(was, next);
    var prepared := d.(journal := Entry(Prepared(was.0, was.1), {}));
    assert EndOf(d, WriteNote(d, Prepared(was.0, was.1), Wrote).states) == prepared;
    var written := prepared.(cert := cb.states[0].0, key := cb.states[0].1);
    assert EndOf(prepared, CallbackStates(prepared, cb)) == written;
    EndOfAndThen(prepared, CallbackStates(prepared, cb), WriteNote(written, Idle, Wrote).states);
    EndOfAndThen(d, WriteNote(d, Prepared(was.0, was.1), Wrote).states, Replacement(prepared, matches, WELL, cb).states);
    assert Recovery(d, matches, WELL_RECOVERY) == Run([], true);
    assert [] + Guarded(d, matches, WELL, cb).states == Guarded(d, matches, WELL, cb).states;
  }

  // ---- the files and the served certificate as objects ----

  /** From disk `d`, with `before` already seen, the run was made step by step and led to disk `e`. */
  ghost predicate Went(d: Disk, before: seq<Disk>, run: Run, e: Disk, after: seq<Disk>) {
    e == EndOf(d, run.states) && after == before + run.states
  }

  lemma WentOn(d: Disk, s: seq<Disk>, first: Run, d1: Disk, s1: seq<Disk>, second: Run, d2: Disk, s2: seq<Disk>)
    requires Went(d, s, first, d1, s1) && Went(d1, s1, second, d2, s2)
    ensures Went(d, s, AndThen(first, second), d2, s2)
  {
    EndOfAndThen(d, first.states, second.states);
    assert s2 == s + AndThen(first, second).states;
  }

  /** The three files of one certificate. `seen` records every state the disk has gone through. */
  class Backing {
    var journal: Entry<Note>
    var cert: Entry<Option<Blob>>
    var key: Entry<Option<Blob>>
    ghost var seen: seq<Disk>

    ghost function View(): Disk reads this { Disk(journal, cert, key) }

    constructor (d: Disk)
      ensures View() == d && seen == []
    {
      journal, cert, key := d.journal, d.cert, d.key;
      seen := [];
    }

    method StoreNote(note: Note, w: WriteResult) returns (ok: bool)
      modifies this
      ensures Went(old(View()), old(seen), WriteNote(old(View()), note, w), View(), seen)
      ensures ok == WriteNote(old(View()), note, w).ok
    {
      if w == Untouched {
        return false;
      }
      journal := Entry(note, Possible(journal));
      seen := seen + [View()];
      if w == Unflushed {
        return false;
      }
      journal := Entry(note, {});
      seen := seen + [View()];
      return true;
    }

    method PutBackCert(blob: Blob, a: FileAnswers) returns (ok: bool)
      modifies this
      ensures Went(old(View()), old(seen), RestoreCert(old(View()), blob, a), View(), seen)
      ensures ok == RestoreCert(old(View()), blob, a).ok
    {
      if a.irregular {
        return false;
      }
      if a.readable && cert.now == Some(blob) {
        if !a.flushed {
          return false;
        }
        cert := Entry(cert.now, {});
        seen := seen + [View()];
        return true;
      }
      if a.write == Untouched {
        return false;
      }
      cert := Entry(Some(blob), Possible(cert));
      seen := seen + [View()];
      if a.write == Unflushed {
        return false;
      }
      cert := Entry(Some(blob), {});
      seen := seen + [View()];
      return true;
    }

    method PutBackKey(blob: Blob, a: FileAnswers) returns (ok: bool)
      modifies this
      ensures Went(old(View()), old(seen), RestoreKey(old(View()), blob, a), View(), seen)
      ensures ok == RestoreKey(old(View()), blob, a).ok
    {
      if a.irregular {
        return false;
      }
      if a.readable && key.now == Some(blob) {
        if !a.flushed {
          return false;
        }
        key := Entry(key.now, {});
        seen := seen + [View()];
        return true;
      }
      if a.write == Untouched {
        return false;
      }
      key := Entry(Some(blob), Possible(key));
      seen := seen + [View()];
      if a.write == Unflushed {
        return false;
      }
      key := Entry(Some(blob), {});
      seen := seen + [View()];
      return true;
    }

    method PutBack(savedCert: Blob, savedKey: Blob, a: RecoveryAnswers) returns (ok: bool)
      modifies this
      ensures Went(old(View()), old(seen), Restoration(old(View()), savedCert, savedKey, a), View(), seen)
      ensures ok == Restoration(old(View()), savedCert, savedKey, a).ok
    {
      ghost var d, s := View(), seen;
      ok := PutBackCert(savedCert, a.cert);
      if !ok {
        return;
      }
      ghost var first := RestoreCert(d, savedCert, a.cert);
      ghost var d1, s1 := View(), seen;
      ok := PutBackKey(savedKey, a.key);
      ghost var second := RestoreKey(d1, savedKey, a.key);
      WentOn(d, s, first, d1, s1, second, View(), seen);
      if !ok {
        return;
      }
      ghost var d2, s2 := View(), seen;
      ok := StoreNote(Idle, a.clear);
      WentOn(d, s, AndThen(first, second), d2, s2, WriteNote(d2, Idle, a.clear), View(), seen);
    }

    method Recover(matches: (Blob, Blob) -> bool, a: RecoveryAnswers) returns (ok: bool)
      modifies this
      ensures Went(old(View()), old(seen), Recovery(old(View()), matches, a), View(), seen)
      ensures ok == Recovery(old(View()), matches, a).ok
    {
      if !a.journalReadable {
        return false;
      }
      if !journal.now.Prepared? {
        return true;
      }
      if !matches(journal.now.cert, journal.now.key) {
        return false;
      }
      ok := PutBack(journal.now.cert, journal.now.key, a);
    }

    /** The caller's own writes. */
    method Call(cb: Callback)
      modifies this
      ensures Went(old(View()), old(seen), Run(CallbackStates(old(View()), cb), true), View(), seen)
    {
      var i := 0;
      while i < |cb.states|
        invariant 0 <= i <= |cb.states| && journal == old(journal)
        invariant seen == old(seen) + CallbackStates(old(View()), cb)[..i]
        invariant View() == EndOf(old(View()), CallbackStates(old(View()), cb)[..i])
      {
        cert, key := cb.states[i].0, cb.states[i].1;
        seen := seen + [View()];
        i := i + 1;
      }
    }

    method Replace(matches: (Blob, Blob) -> bool, a: UpdateAnswers, cb: Callback) returns (ok: bool)
      modifies this
      ensures Went(old(View()), old(seen), Replacement(old(View()), matches, a, cb), View(), seen)
      ensures ok == Replacement(old(View()), matches, a, cb).ok
    {
      ghost var d, s := View(), seen;
      Call(cb);
      ghost var done, s1 := View(), seen;
      ghost var written := Run(CallbackStates(d, cb), true);
      if cb.ok && a.loadable && cert.now.Some? && key.now.Some? && matches(cert.now.value, key.now.value) {
        ok := StoreNote(Idle, a.commit);
        WentOn(d, s, written, done, s1, WriteNote(done, Idle, a.commit), View(), seen);
      } else {
        var _ := Recover(matches, a.after);
        WentOn(d, s, written, done, s1, Recovery(done, matches, a.after), View(), seen);
        ok := false;
      }
    }

    method Guard(matches: (Blob, Blob) -> bool, a: UpdateAnswers, cb: Callback) returns (ok: bool)
      modifies this
      ensures Went(old(View()), old(seen), Guarded(old(View()), matches, a, cb), View(), seen)
      ensures ok == Guarded(old(View()), matches, a, cb).ok
    {
      if !a.readable || cert.now == None || key.now == None || !matches(cert.now.value, key.now.value) {
        return false;
      }
      ghost var d, s := View(), seen;
      var note := Prepared(cert.now.value, key.now.value);
      ok := StoreNote(note, a.prepare);
      if !ok {
        return;
      }
      ghost var d1, s1 := View(), seen;
      ok := Replace(matches, a, cb);
      WentOn(d, s, WriteNote(d, note, a.prepare), d1, s1, Replacement(d1, matches, a, cb), View(), seen);
    }

    method WithPairUpdate(matches: (Blob, Blob) -> bool, a: UpdateAnswers, cb: Callback) returns (ok: bool)
      modifies this
      ensures Went(old(View()), old(seen), Update(old(View()), matches, a, cb), View(), seen)
      ensures ok == Update(old(View()), matches, a, cb).ok
    {
      ghost var d, s := View(), seen;
      ok := Recover(matches, a.before);
      if !ok {
        return;
      }
      ghost var d1, s1 := View(), seen;
      ok := Guard(matches, a, cb);
      WentOn(d, s, Recovery(d, matches, a.before), d1, s1, Guarded(d1, matches, a, cb), View(), seen);
    }
  }

  /** The certificate handed to every handshake. */
  class ReloadableCert {
    var current: Option<Pair>

    /** Only a matched pair is ever served. */
    ghost predicate Valid(matches: (Blob, Blob) -> bool) reads this {
      current.Some? ==> matches(current.value.0, current.value.1)
    }

    constructor ()
      ensures current == None
    {
      current := None;
    }

    method GetCertificate() returns (served: Option<Pair>)
      ensures served == current
    {
      served := current;
    }

    /** Recovery first, then the load; any failure keeps what is being served. */
    method Reload(files: Backing, matches: (Blob, Blob) -> bool, a: RecoveryAnswers, loadable: bool) returns (ok: bool)
      requires Valid(matches)
      modifies this, files
      ensures Valid(matches)
      ensures Went(old(files.View()), old(files.seen), Recovery(old(files.View()), matches, a), files.View(), files.seen)
      ensures !ok ==> current == old(current)
      ensures ok ==> Loads(files.View(), matches) && current == Some((files.cert.now.value, files.key.now.value))
      ensures ok <==> Recovery(old(files.View()), matches, a).ok && loadable && Loads(files.View(), matches)
    {
      ok := files.Recover(matches, a);
      if !ok {
        return;
      }
      if !loadable || files.cert.now == None || files.key.now == None
         || !matches(files.cert.now.value, files.key.now.value) {
        return false;
      }
      current := Some((files.cert.now.value, files.key.now.value));
    }
  }

  /** On a disk that any such run has left, a reload whose reads and writes succeed always succeeds. */
  lemma ReloadSucceeds(d: Disk, matches: (Blob, Blob) -> bool, pairs: set<Pair>, a: RecoveryAnswers)
    requires Keeps(d, matches, pairs) && a.journalReadable && a.clear == Wrote
    requires !a.cert.irregular && a.cert.flushed && a.cert.write == Wrote
    requires !a.key.irregular && a.key.flushed && a.key.write == Wrote
    ensures Recovery(d, matches, a).ok && Loads(EndOf(d, Recovery(d, matches, a).states), matches)
  {
    assert d.journal.now in Possible(d.journal);
    RecoveryKeeps(d, matches, pairs, a);
  }
}
