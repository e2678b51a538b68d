/** Reports waiting to be sent (agentupdate/report.go): the ledger of reports that had to be dropped, which a pruning
    process and a sending process share, and the drain that sends the rest in order. */
module Reports {

  // ---- the drop ledger ----

  /** A file that should hold a count. A write that fails after it has opened the file leaves it `Torn`. */
  datatype CountFile = Absent | Count(n: nat) | Torn

  function Amount(f: CountFile): nat { if f.Count? then f.n else 0 }

  /** What reading gives: nothing if the file is absent, torn or cannot be read. */
  function Read(f: CountFile, readable: bool): nat { if readable then Amount(f) else 0 }

  /** Opening a file for writing empties it, so a write is done, refused at the opening, or fails afterwards. */
  datatype WriteResult = Wrote | Refused | Truncated

  /** Where the sender is: idle, sending with a claimed count, or putting an undelivered count back. */
  datatype Sender = Resting | Draining(count: nat, delivered: bool) | PuttingBack(count: nat)

  /** The two files and the sender, and the account kept of them: everything ever dropped, what accepted reports
      carried, what went unrecorded, and what will be told twice. */
  datatype Books = Books(
    ledger: CountFile, claim: CountFile, sender: Sender, total: nat, carried: nat, lost: nat, repeated: nat)

  const EMPTY: Books := Books(Absent, Absent, Resting, 0, 0, 0, 0)

  /** How an addition to the ledger goes: can the ledger be read, and how does its write come out? A lock that cannot
      be taken refuses the write. */
  datatype AddAnswers = AddAnswers(readable: bool, write: WriteResult)

  /** How a claim goes: the lock, the reading of an orphaned claim, the addition that folds it in, its removal, the
      rename, the reading of the renamed file, and the removal of one that reads as nothing. */
  datatype ClaimAnswers = ClaimAnswers(
    locked: bool, orphanReadable: bool, add: AddAnswers, cleared: bool, renamed: bool, readBack: bool, removed: bool)

  /** Steps of either process. A crash takes the sender; one inside a claim is a claim whose later answers are
      failures, and one of the pruning process an addition that is refused or truncated. */
  datatype Event =
    | Prunes(n: nat, add: AddAnswers)
    | Claims(claim: ClaimAnswers)
    | Accepted
    | Discards(removed: bool)
    | Withdraws(readable: bool, removed: bool)
    | PutsBack(add: AddAnswers)
    | Dies

  function Added(ledger: CountFile, n: nat, a: AddAnswers): CountFile {
    match a.write
    case Wrote => Count(Read(ledger, a.readable) + n)
    case Refused => ledger
    case Truncated => Torn
  }

  /** What an addition destroys of the ledger it finds. */
  function Destroyed(ledger: CountFile, a: AddAnswers): nat {
    match a.write
    case Wrote => Amount(ledger) - Read(ledger, a.readable)
    case Refused => 0
    case Truncated => Amount(ledger)
  }

  /** An orphaned claim is folded in if it reads as a count, and thrown away if it reads as nothing. */
  predicate Folds(b: Books, a: ClaimAnswers) { Read(b.claim, a.orphanReadable) > 0 }

  predicate Folded(b: Books, a: ClaimAnswers) { Folds(b, a) && a.add.write == Wrote }

  function Recovered(b: Books, a: ClaimAnswers): Books {
    if Folds(b, a) then
      var n := Read(b.claim, a.orphanReadable);
      b.(ledger := Added(b.ledger, n, a.add), lost := b.lost + Destroyed(b.ledger, a.add),
         claim := if a.add.write == Wrote && a.cleared then Absent else b.claim)
    else if a.cleared then b.(claim := Absent, lost := b.lost + Amount(b.claim))
    else b
  }

  /** Renaming the ledger over the claim. `copied`: the claim still there is also in the ledger. */
  function Renamed(b: Books, copied: bool, a: ClaimAnswers): Books {
    if !a.renamed || b.ledger == Absent then
      b.(sender := Draining(0, false), repeated := b.repeated + if copied then Amount(b.claim) else 0)
    else
      var overwritten := if copied then 0 else Amount(b.claim);
      var n := Read(b.ledger, a.readBack);
      var c := b.(ledger := Absent, claim := b.ledger, sender := Draining(n, false), lost := b.lost + overwritten);
      if n == 0 && a.removed then c.(claim := Absent, lost := c.lost + Amount(b.ledger)) else c
  }

  function Claim(b: Books, a: ClaimAnswers): Books {
    if !a.locked then b.(sender := Draining(0, false)) else Renamed(Recovered(b, a), Folded(b, a), a)
  }

  function Withdraw(b: Books, readable: bool, removed: bool): Books
    requires b.sender.Draining?
  {
    var after := if removed then Absent else b.claim;
    if readable then b.(claim := after, sender := PuttingBack(b.sender.count))
    else b.(claim := after, sender := Resting, lost := b.lost + if removed then Amount(b.claim) else 0)
  }

  /** A count put back while its claim is still there will be told twice; one that cannot be put back is gone unless
      its claim is still there. */
  function PutBack(b: Books, count: nat, a: AddAnswers): Books {
    b.(ledger := Added(b.ledger, count, a), sender := Resting,
       lost := b.lost + Destroyed(b.ledger, a) + (if a.write != Wrote && b.claim == Absent then count else 0),
       repeated := b.repeated + if a.write == Wrote then Amount(b.claim) else 0)
  }

  function Step(b: Books, e: Event): Books {
    match e
    case Prunes(n, a) =>
      if n == 0 then b
      else
        b.(ledger := Added(b.ledger, n, a), total := b.total + n,
           lost := b.lost + Destroyed(b.ledger, a) + if a.write == Wrote then 0 else n)
    case Claims(a) => if b.sender == Resting then Claim(b, a) else b
    case Accepted =>
      if b.sender.Draining? && b.sender.count > 0 && !b.sender.delivered
      then b.(sender := b.sender.(delivered := true), carried := b.carried + b.sender.count)
      else b
    case Discards(removed) =>
      if b.sender.Draining? && b.sender.delivered then
        if removed then b.(claim := Absent, sender := Resting)
        else b.(sender := Resting, repeated := b.repeated + Amount(b.claim))
      else b
    case Withdraws(readable, removed) =>
      if b.sender.Draining? && !b.sender.delivered then
        if b.sender.count == 0 then b.(sender := Resting) else Withdraw(b, readable, removed)
      else b
    case PutsBack(a) => if b.sender.PuttingBack? then PutBack(b, b.sender.count, a) else b
    case Dies =>
      match b.sender
      case Resting => b
      case Draining(_, delivered) =>
        b.(sender := Resting, repeated := b.repeated + if delivered then Amount(b.claim) else 0)
      case PuttingBack(count) => b.(sender := Resting, lost := b.lost + if b.claim == Absent then count else 0)
  }

  function Play(b: Books, events: seq<Event>): Books {
    if events == [] then b else Step(Play(b, events[..|events| - 1]), events[|events| - 1])
  }

  /** What the sender holds and neither file does. */
  function InTransit(b: Books): nat { if b.sender.PuttingBack? && b.claim == Absent then b.sender.count else 0 }

  /** What is still to be told: a claim counts until a report carrying it has been accepted. */
  function Owed(b: Books): nat {
    Amount(b.ledger) + InTransit(b) + if b.sender.Draining? && b.sender.delivered then 0 else Amount(b.claim)
  }

  ghost predicate Balanced(b: Books) {
    && b.total + b.repeated == Owed(b) + b.carried + b.lost
    && (b.sender.Draining? && b.sender.count > 0 ==> b.claim == Count(b.sender.count))
    && (b.sender.Draining? && b.sender.delivered ==> b.sender.count > 0)
    && (b.sender.PuttingBack? ==> b.sender.count > 0 && b.claim in {Absent, Count(b.sender.count)})
  }

  lemma ClaimBalances(b: Books, a: ClaimAnswers)
    requires Balanced(b) && b.sender == Resting
    ensures Balanced(Claim(b, a))
  {
  }

  lemma StepBalances(b: Books, e: Event)
    requires Balanced(b)
    ensures Balanced(Step(b, e))
  {
    if e.Claims? && b.sender == Resting { ClaimBalances(b, e.claim); }
  }

  /** In every interleaving of prunes with the sender's steps, with crashes and failures anywhere, the books balance. */
  lemma {:induction false} BooksBalance(events: seq<Event>)
    ensures Balanced(Play(EMPTY, events))
  {
    if events != [] {
      BooksBalance(events[..|events| - 1]);
      StepBalances(Play(EMPTY, events[..|events| - 1]), events[|events| - 1]);
    }
  }

  // ---- which steps lose or repeat ----

  /** An addition harms a ledger that holds something when it cannot read it and writes, or truncates it. */
  predicate Harms(ledger: CountFile, a: AddAnswers) {
    Amount(ledger) > 0 && (a.write == Truncated || (a.write == Wrote && !a.readable))
  }

  /** Is there a ledger to rename once the orphan has been dealt with, and does it hold a count? */
  predicate LedgerThere(b: Books, a: ClaimAnswers) { b.ledger != Absent || (Folds(b, a) && a.add.write != Refused) }

  predicate LedgerCounts(b: Books, a: ClaimAnswers) {
    Folded(b, a) || (Amount(b.ledger) > 0 && !(Folds(b, a) && a.add.write == Truncated))
  }

  /** A claim loses a count when folding the orphan in harms the ledger, when an orphan that cannot be read is thrown
      away, when one that could not be folded in is renamed over, or when the renamed file cannot be read back and is
      removed. */
  predicate ClaimLoses(b: Books, a: ClaimAnswers) {
    || (Folds(b, a) && Harms(b.ledger, a.add))
    || (Amount(b.claim) > 0 && !a.orphanReadable && a.cleared)
    || (Amount(b.claim) > 0 && a.renamed && LedgerThere(b, a) && !Folded(b, a))
    || (a.renamed && LedgerCounts(b, a) && !a.readBack && a.removed)
  }

  /** The steps that lose a count. Besides those of a claim: an addition that fails or harms the ledger, a claim removed
      but not read, and a crash between removing the claim and putting its count back. */
  predicate Loses(b: Books, e: Event) {
    match e
    case Prunes(n, a) => n > 0 && (a.write != Wrote || Harms(b.ledger, a))
    case Claims(a) => b.sender == Resting && a.locked && ClaimLoses(b, a)
    case Withdraws(readable, removed) =>
      b.sender.Draining? && !b.sender.delivered && b.sender.count > 0 && !readable && removed
    case PutsBack(a) => b.sender.PuttingBack? && (Harms(b.ledger, a) || (a.write != Wrote && b.claim == Absent))
    case Dies => b.sender.PuttingBack? && b.claim == Absent
    case _ => false
  }

  /** The steps that make a count be told twice: a claim that outlives its delivery, its return or its folding in. */
  predicate Repeats(b: Books, e: Event) {
    match e
    case Claims(a) => b.sender == Resting && a.locked && Folded(b, a) && !a.cleared && !a.renamed
    case Discards(removed) => !removed && b.sender.Draining? && b.sender.delivered
    case PutsBack(a) => b.sender.PuttingBack? && a.write == Wrote && b.claim != Absent
    case Dies => b.sender.Draining? && b.sender.delivered
    case _ => false
  }

  /** No step of the run was of this kind. */
  ghost predicate NoneSo(events: seq<Event>, bad: (Books, Event) -> bool) {
    events == [] ||
    (var front, last := events[..|events| - 1], events[|events| - 1];
     NoneSo(front, bad) && !bad(Play(EMPTY, front), last))
  }

  lemma ClaimFaultsIff(b: Books, a: ClaimAnswers)
    requires a.locked && b.sender == Resting
    ensures Claim(b, a).lost >= b.lost && (Claim(b, a).lost > b.lost <==> ClaimLoses(b, a))
    ensures Claim(b, a).repeated >= b.repeated
    ensures Claim(b, a).repeated > b.repeated <==> Folded(b, a) && !a.cleared && !a.renamed
  {
  }

  lemma StepFaultsIff(b: Books, e: Event)
    requires Balanced(b)
    ensures Step(b, e).lost >= b.lost && (Step(b, e).lost > b.lost <==> Loses(b, e))
    ensures Step(b, e).repeated >= b.repeated && (Step(b, e).repeated > b.repeated <==> Repeats(b, e))
  {
    if e.Claims? && b.sender == Resting && e.claim.locked { ClaimFaultsIff(b, e.claim); }
  }

  /** A count has been lost exactly if one of those steps was taken, and may be told twice likewise. */
  lemma {:induction false} FaultsAreExactly(events: seq<Event>)
    ensures Play(EMPTY, events).lost == 0 <==> NoneSo(events, Loses)
    ensures Play(EMPTY, events).repeated == 0 <==> NoneSo(events, Repeats)
  {
    if events != [] {
      var n := |events| - 1;
      FaultsAreExactly(events[..n]);
      BooksBalance(events[..n]);
      StepFaultsIff(Play(EMPTY, events[..n]), events[n]);
    }
  }

  /** Nothing dropped goes untold: it is owed or was carried. A sender crash between claim and release is no exception,
      it can only repeat. Without those crashes the account is exact. */
  lemma DropsAreConserved(events: seq<Event>)
    requires NoneSo(events, Loses)
    ensures var b := Play(EMPTY, events); b.total <= Owed(b) + b.carried
    ensures var b := Play(EMPTY, events); NoneSo(events, Repeats) <==> b.total == Owed(b) + b.carried
  {
    BooksBalance(events);
    FaultsAreExactly(events);
  }

  // ---- runs that lose and repeat ----

  const WELL: AddAnswers := AddAnswers(true, Wrote)

  const CLAIM_WELL: ClaimAnswers := ClaimAnswers(true, true, WELL, true, true, true, true)

  lemma PlayOn(events: seq<Event>, e: Event)
    ensures Play(EMPTY, events + [e]) == Step(Play(EMPTY, events), e)
  {
    assert (events + [e])[..|events|] == events;
  }

  /** Five drops recorded and claimed. */
  lemma FiveClaimed()
    ensures Play(EMPTY, [Prunes(5, WELL), Claims(CLAIM_WELL)]) == Books(Absent, Count(5), Draining(5, false), 5, 0, 0, 0)
  {
    var first, second := Prunes(5, WELL), Claims(CLAIM_WELL);
    PlayOn([], first);
    PlayOn([first], second);
    assert [] + [first] == [first] && [first] + [second] == [first, second];
  }

  /** A crash while an undelivered claim is put back does lose it: the claim is removed before its count is added. */
  lemma CrashInReleaseLoses()
    ensures var b := Play(EMPTY, [Prunes(5, WELL), Claims(CLAIM_WELL)] + [Withdraws(true, true)] + [Dies]);
            b.total == 5 && Owed(b) == 0 && b.carried == 0
  {
    var claimed, after := [Prunes(5, WELL), Claims(CLAIM_WELL)], Withdraws(true, true);
    FiveClaimed();
    PlayOn(claimed, after);
    PlayOn(claimed + [after], Dies);
  }

  /** A full disk loses an orphaned claim: folding it in creates an empty ledger, which is renamed over the claim, reads
      as nothing and is removed. */
  lemma FullDiskLosesOrphan()
    ensures var full := CLAIM_WELL.(add := AddAnswers(true, Truncated));
            var b := Play(EMPTY, [Prunes(5, WELL), Claims(CLAIM_WELL)] + [Dies] + [Claims(full)]);
            b.total == 5 && Owed(b) == 0 && b.carried == 0
  {
    var claimed, full := [Prunes(5, WELL), Claims(CLAIM_WELL)], CLAIM_WELL.(add := AddAnswers(true, Truncated));
    FiveClaimed();
    PlayOn(claimed, Dies);
    PlayOn(claimed + [Dies], Claims(full));
  }

  /** A claim that could not be removed when its count was put back is told twice. */
  lemma KeptClaimIsToldTwice()
    ensures var b := Play(EMPTY, [Prunes(5, WELL), Claims(CLAIM_WELL)] + [Withdraws(true, false)] + [PutsBack(WELL)]);
            b.total == 5 && Owed(b) == 10
  {
    var claimed, after := [Prunes(5, WELL), Claims(CLAIM_WELL)], Withdraws(true, false);
    FiveClaimed();
    PlayOn(claimed, after);
    PlayOn(claimed + [after], PutsBack(WELL));
  }

  // ---- the drain ----

  /** One stored file and how the system will treat it if the drain gets to it. */
  datatype Stored = Stored(name: nat, report: string, corrupt: bool, readable: bool, accepted: bool, removable: bool)

  /** A report as sent: the first one accepted carries the count of drops. */
  datatype Sent = Sent(name: nat, report: string, droppedBefore: nat)

  datatype Drained = Drained(left: seq<Stored>, sent: seq<Sent>, corrupt: nat, finished: bool)

  predicate Stops(f: Stored) { !f.readable || (!f.corrupt && (!f.accepted || !f.removable)) }

  /** Stuck: a corrupt file whose removal failed, which the drain does not mind. */
  predicate Stuck(f: Stored) { f.corrupt && !f.removable }

  function Drain(files: seq<Stored>, dropped: nat): Drained {
    if files == [] then Drained([], [], 0, true)
    else
      var f := files[0];
      if !f.readable then Drained(files, [], 0, false)
      else if f.corrupt then
        var rest := Drain(files[1..], dropped);
        Drained((if f.removable then [] else [f]) + rest.left, rest.sent, rest.corrupt + 1, rest.finished)
      else if !f.accepted then Drained(files, [], 0, false)
      else
        var sent := [Sent(f.name, f.report, dropped)];
        if !f.removable then Drained(files, sent, 0, false)
        else
          var rest := Drain(files[1..], 0);
          Drained(rest.left, sent + rest.sent, rest.corrupt, rest.finished)
  }

  /** How many files the drain gets past. */
  function Passed(files: seq<Stored>): (n: nat)
    ensures n <= |files|
    ensures n < |files| ==> Stops(files[n])
    ensures forall i :: 0 <= i < n ==> !Stops(files[i])
  {
    if files == [] || Stops(files[0]) then 0 else 1 + Passed(files[1..])
  }

  ghost function StuckIn(files: seq<Stored>): seq<Stored> {
    if files == [] then [] else (if Stuck(files[0]) then [files[0]] else []) + StuckIn(files[1..])
  }

  /** What is left: the stuck files among those passed, then everything from the first stop on, in order. */
  lemma {:induction false} LeftIs(files: seq<Stored>, dropped: nat)
    ensures Drain(files, dropped).left == StuckIn(files[..Passed(files)]) + files[Passed(files)..]
    ensures Drain(files, dropped).finished <==> Passed(files) == |files|
  {
    if files != [] && !Stops(files[0]) {
      var f, tail := files[0], files[1..];
      var n, d := Passed(tail), if f.corrupt then dropped else 0;
      var stuck := if Stuck(f) then [f] else [];
      LeftIs(tail, d);
      StuckInOneMore(files, n);
      Regroup(stuck, StuckIn(tail[..n]), tail[n..]);
      assert tail[n..] == files[n + 1..];
      assert Drain(files, dropped).left == stuck + Drain(tail, d).left;
    } else {
      assert files[..0] == [] && files[0..] == files;
    }
  }

  lemma StuckInOneMore(files: seq<Stored>, n: nat)
    requires n < |files|
    ensures StuckIn(files[..n + 1]) == (if Stuck(files[0]) then [files[0]] else []) + StuckIn(files[1..][..n])
  {
    assert files[..n + 1][1..] == files[1..][..n];
  }

  lemma Regroup(a: seq<Stored>, b: seq<Stored>, c: seq<Stored>)
    ensures a + (b + c) == (a + b) + c
  {
  }

  ghost predicate NamesDiffer(files: seq<Stored>) {
    forall i, j :: 0 <= i < j < |files| ==> files[i].name != files[j].name
  }

  /** No file is removed behind a stuck one. */
  ghost predicate NoneBehindStuck(passed: seq<Stored>) {
    forall i, j :: 0 <= i < j < |passed| && Stuck(passed[i]) ==> Stuck(passed[j])
  }

  lemma {:induction false} StuckAre(files: seq<Stored>, f: Stored)
    ensures f in StuckIn(files) <==> f in files && Stuck(f)
  {
    if files != [] { StuckAre(files[1..], f); }
  }

  lemma {:induction false} AllStuck(files: seq<Stored>)
    requires forall i :: 0 <= i < |files| ==> Stuck(files[i])
    ensures StuckIn(files) == files
  {
    if files != [] {
      AllStuck(files[1..]);
      assert files == [files[0]] + files[1..];
    }
  }

  /** If the stuck files are last among those passed, they are a suffix of them. */
  lemma {:induction false} StuckSuffix(passed: seq<Stored>) returns (k: nat)
    requires NoneBehindStuck(passed)
    ensures k <= |passed| && StuckIn(passed) == passed[k..]
  {
    if passed == [] {
      k := 0;
    } else if Stuck(passed[0]) {
      forall i | 0 <= i < |passed| ensures Stuck(passed[i]) { assert i > 0 ==> Stuck(passed[i]); }
      AllStuck(passed);
      k := 0;
    } else {
      forall i, j | 0 <= i < j < |passed[1..]| && Stuck(passed[1..][i]) ensures Stuck(passed[1..][j]) {
        assert passed[1..][i] == passed[i + 1] && passed[1..][j] == passed[j + 1];
      }
      var n := StuckSuffix(passed[1..]);
      k := n + 1;
      assert passed[1..][n..] == passed[n + 1..];
    }
  }

  /** A drain removes exactly a prefix of the stored reports if and only if it removes none behind a corrupt file whose
      removal failed. */
  lemma RemovesAPrefixIff(files: seq<Stored>, dropped: nat)
    requires NamesDiffer(files)
    ensures (exists k :: 0 <= k <= |files| && Drain(files, dropped).left == files[k..])
       <==> NoneBehindStuck(files[..Passed(files)])
  {
    var n := Passed(files);
    var passed, left := files[..n], Drain(files, dropped).left;
    LeftIs(files, dropped);
    if NoneBehindStuck(passed) {
      var k := StuckSuffix(passed);
      assert passed[k..] + files[n..] == files[k..];
    }
    if k :| 0 <= k <= |files| && left == files[k..] {
      forall i, j | 0 <= i < j < |passed| && Stuck(passed[i]) ensures Stuck(passed[j]) {
        BehindStuckIsStuck(files, n, k, i, j);
      }
    }
  }

  /** If what is left is a suffix, a file passed behind a stuck one is left too, so it is stuck. */
  lemma BehindStuckIsStuck(files: seq<Stored>, n: nat, k: nat, i: nat, j: nat)
    requires NamesDiffer(files) && i < j < n <= |files| && k <= |files| && Stuck(files[i])
    requires StuckIn(files[..n]) + files[n..] == files[k..]
    ensures Stuck(files[j])
  {
    var passed, left := files[..n], files[k..];
    assert passed[i] == files[i] && passed[j] == files[j];
    StuckAre(passed, files[i]);
    assert files[i] in left;
    AtOrBehind(files, k, i);
    assert files[j] == left[j - k];
    NotBehind(files, n, j);
    StuckAre(passed, files[j]);
  }

  /** Such a drain: a corrupt file that cannot be removed, then a report that is accepted and removed. */
  lemma StuckFileIsSteppedOver()
    ensures var files := [Stored(1, "", true, true, false, false), Stored(2, "r", false, true, true, true)];
            Drain(files, 0).left == [files[0]] && !exists k :: 0 <= k <= |files| && Drain(files, 0).left == files[k..]
  {
    var files := [Stored(1, "", true, true, false, false), Stored(2, "r", false, true, true, true)];
    assert files[1..] == [files[1]] && files[1..][1..] == [];
    forall k | 0 <= k <= |files| ensures Drain(files, 0).left != files[k..] {
      assert k == 1 ==> files[k..][0] == files[1];
    }
  }

  lemma AtOrBehind(files: seq<Stored>, k: nat, i: nat)
    requires NamesDiffer(files) && k <= |files| && i < |files| && files[i] in files[k..]
    ensures k <= i
  {
    var m :| 0 <= m < |files[k..]| && files[k..][m] == files[i];
    assert files[k + m] == files[i];
  }

  lemma NotBehind(files: seq<Stored>, n: nat, j: nat)
    requires NamesDiffer(files) && j < n <= |files|
    ensures files[j] !in files[n..]
  {
    if files[j] in files[n..] { AtOrBehind(files, n, j); }
  }

  /** The good reports that the drain reached and that were accepted, in order: none is skipped. */
  ghost function GoodNames(files: seq<Stored>): seq<nat> {
    if files == [] then []
    else (if files[0].corrupt || !files[0].readable then [] else [files[0].name]) + GoodNames(files[1..])
  }

  function Names(sent: seq<Sent>): seq<nat> {
    if sent == [] then [] else [sent[0].name] + Names(sent[1..])
  }

  /** How many files the accepted reports come from: those passed, and the one that was accepted but could not be
      removed. */
  function Reached(files: seq<Stored>): nat {
    var n := Passed(files);
    if n < |files| && files[n].readable && !files[n].corrupt && files[n].accepted then n + 1 else n
  }

  lemma {:induction false} SentInOrder(files: seq<Stored>, dropped: nat)
    ensures Names(Drain(files, dropped).sent) == GoodNames(files[..Reached(files)])
    ensures forall i :: 0 <= i < |Drain(files, dropped).sent| ==>
              Drain(files, dropped).sent[i].droppedBefore == if i == 0 then dropped else 0
  {
    if files != [] {
      if Stops(files[0]) {
        if Reached(files) == 1 { assert files[..1] == [files[0]]; assert files[..1][1..] == []; }
      } else {
        SentInOrder(files[1..], if files[0].corrupt then dropped else 0);
        var n := Reached(files[1..]);
        assert Reached(files) == n + 1 && files[..n + 1][1..] == files[1..][..n];
        if !files[0].corrupt {
          assert Drain(files, dropped).sent[1..] == Drain(files[1..], 0).sent;
        }
      }
    }
  }

  /** What has happened so far, and the drain of the rest. */
  function Onto(kept: seq<Stored>, sent: seq<Sent>, corrupt: nat, rest: Drained): Drained {
    Drained(kept + rest.left, sent + rest.sent, corrupt + rest.corrupt, rest.finished)
  }

  lemma PastCorrupt(kept: seq<Stored>, sent: seq<Sent>, corrupt: nat, files: seq<Stored>, dropped: nat)
    requires files != [] && files[0].readable && files[0].corrupt
    ensures Onto(kept, sent, corrupt, Drain(files, dropped)) ==
              Onto(kept + if files[0].removable then [] else [files[0]], sent, corrupt + 1, Drain(files[1..], dropped))
  {
    Regroup(kept, if files[0].removable then [] else [files[0]], Drain(files[1..], dropped).left);
  }

  lemma PastSent(kept: seq<Stored>, sent: seq<Sent>, corrupt: nat, files: seq<Stored>, dropped: nat)
    requires files != [] && !Stops(files[0]) && !files[0].corrupt
    ensures Onto(kept, sent, corrupt, Drain(files, dropped)) ==
              Onto(kept, sent + [Sent(files[0].name, files[0].report, dropped)], corrupt, Drain(files[1..], 0))
  {
    var one, rest := [Sent(files[0].name, files[0].report, dropped)], Drain(files[1..], 0).sent;
    assert sent + (one + rest) == (sent + one) + rest;
  }

  lemma StopsHere(kept: seq<Stored>, sent: seq<Sent>, corrupt: nat, files: seq<Stored>, dropped: nat)
    requires files != [] && Stops(files[0])
    ensures var last := if files[0].readable && files[0].accepted then [Sent(files[0].name, files[0].report, dropped)] else [];
            Onto(kept, sent, corrupt, Drain(files, dropped)) == Drained(kept + files, sent + last, corrupt, false)
  {
  }

  /** The directory, drained in place. */
  class Spool {
    var files: seq<Stored>

    constructor (stored: seq<Stored>)
      ensures files == stored
    {
      files := stored;
    }

    /** `claimed` is the count of drops taken from the ledger; `delivered` says whether some accepted report carried it. */
    method DrainReports(claimed: nat) returns (sent: seq<Sent>, corrupt: nat, finished: bool, delivered: bool)
      modifies this
      ensures Drained(files, sent, corrupt, finished) == Drain(old(files), claimed)
      ensures delivered <==> claimed > 0 && sent != []
    {
      var rest, kept, dropped := files, [], claimed;
      sent, corrupt, delivered := [], 0, false;
      while rest != []
        invariant files == kept + rest
        invariant Drain(old(files), claimed) == Onto(kept, sent, corrupt, Drain(rest, dropped))
        invariant dropped == if sent == [] then claimed else 0
        invariant delivered <==> claimed > 0 && sent != []
        decreases |rest|
      {
        var f := rest[0];
        if !f.readable {
          StopsHere(kept, sent, corrupt, rest, dropped);
          return sent, corrupt, false, delivered;
        }
        if f.corrupt {
          PastCorrupt(kept, sent, corrupt, rest, dropped);
          corrupt := corrupt + 1;
          kept := kept + if f.removable then [] else [f];
        } else {
          if !f.accepted {
            StopsHere(kept, sent, corrupt, rest, dropped);
            return sent, corrupt, false, delivered;
          }
          if f.removable {
            PastSent(kept, sent, corrupt, rest, dropped);
          } else {
            StopsHere(kept, sent, corrupt, rest, dropped);
          }
          sent := sent + [Sent(f.name, f.report, dropped)];
          delivered := delivered || dropped > 0;
          dropped := 0;
          if !f.removable {
            return sent, corrupt, false, delivered;
          }
        }
        rest := rest[1..];
        files := kept + rest;
      }
      finished := true;
    }
  }
}
