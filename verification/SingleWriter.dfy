/** A shared file that a process refuses to overwrite when somebody else has changed it (blobstore/single_writer.go), and
    the file underneath (blobstore/blobstore.go), which is replaced where it can be and written in place where it
    cannot. Digests are a function that tells contents apart; None is an absent file. */
module SingleWriter {
  import opened Text

  type Content = Option<string>

  ghost predicate Injective(digest: Content -> string) {
    forall a, b :: digest(a) == digest(b) ==> a == b
  }

  /** One process: the digest of what it last loaded or saved, and a load whose reading is not yet noted. */
  datatype Process = Process(have: bool, seen: string, reading: Option<Content>)

  const FRESH: Process := Process(false, "", None)

  // ---- the file underneath ----

  /** The staged replacement: done, done but not flushed, failed before touching the file, or not possible at all, as
      onto a file that is a mount point. */
  datatype Replacement = Done | NotFlushed | StagingFailed | Impossible

  /** The write through the file instead: can it be opened, which empties it; does the write fail, and after how much;
      does the flush succeed? */
  datatype InPlace = InPlace(openable: bool, failsAfter: Option<nat>, flushed: bool)

  /** How a save came out. `Partial` reports that it was not atomic, or not flushed. A save that fails may have kept the
      old contents, may have the new ones in place (`Unclear`), or may have left the first part of them (`Torn`). */
  datatype WriteResult = Written | Partial | Kept | Unclear | Torn(left: nat)

  function Outcome(r: Replacement, p: InPlace): WriteResult {
    match r
    case Done => Written
    case NotFlushed => Partial
    case StagingFailed => Kept
    case Impossible =>
      if !p.openable then Kept
      else if p.failsAfter.Some? then Torn(p.failsAfter.value)
      else if p.flushed then Partial else Unclear
  }

  function Prefix(s: string, n: nat): string { if n <= |s| then s[..n] else s }

  function ContentAfter(file: Content, data: string, w: WriteResult): Content {
    match w
    case Kept => file
    case Torn(left) => Some(Prefix(data, left))
    case _ => Some(data)
  }

  // ---- a save ----

  predicate Refuses(p: Process, file: Content, digest: Content -> string) { p.have && digest(file) != p.seen }

  /** The saver takes the new contents to be in the file. */
  predicate Believes(w: WriteResult) { w == Written || w == Partial }

  function FileAfter(p: Process, file: Content, data: string, w: WriteResult, digest: Content -> string): Content {
    if Refuses(p, file, digest) then file else ContentAfter(file, data, w)
  }

  function ProcessAfter(p: Process, file: Content, data: string, w: WriteResult, digest: Content -> string): Process {
    if Refuses(p, file, digest) || !Believes(w) then p else p.(have := true, seen := digest(Some(data)))
  }

  // ---- many processes ----

  datatype World = World(file: Content, processes: map<nat, Process>)

  /** A load reads the file and only later notes what it read; a save, under the file lock, is one step; a process that
      restarts remembers nothing. */
  datatype Event = Reads(who: nat) | Notes(who: nat) | Saves(who: nat, data: string, result: WriteResult) | Restarts(who: nat)

  function Of(w: World, who: nat): Process { if who in w.processes then w.processes[who] else FRESH }

  function Step(w: World, e: Event, digest: Content -> string): World {
    var p := Of(w, e.who);
    match e
    case Reads(who) => w.(processes := w.processes[who := p.(reading := Some(w.file))])
    case Notes(who) =>
      if p.reading == None then w
      else w.(processes := w.processes[who := Process(true, digest(p.reading.value), None)])
    case Saves(who, data, result) =>
      World(FileAfter(p, w.file, data, result, digest), w.processes[who := ProcessAfter(p, w.file, data, result, digest)])
    case Restarts(who) => w.(processes := w.processes[who := FRESH])
  }

  function Play(file: Content, events: seq<Event>, digest: Content -> string): World {
    if events == [] then World(file, map[])
    else Step(Play(file, events[..|events| - 1], digest), events[|events| - 1], digest)
  }

  /** The world in which event i happens. */
  function At(file: Content, events: seq<Event>, i: nat, digest: Content -> string): World
    requires i <= |events|
  {
    Play(file, events[..i], digest)
  }

  /** The contents that a process last loaded or believes it saved, read off the history. */
  function LastKnown(file: Content, events: seq<Event>, who: nat, digest: Content -> string): Option<Content> {
    if events == [] then None
    else
      var front, e := events[..|events| - 1], events[|events| - 1];
      var known, w := LastKnown(file, front, who, digest), Play(file, front, digest);
      if e.who != who then known
      else
        match e
        case Reads(_) => known
        case Notes(_) => if Of(w, who).reading.Some? then Some(Of(w, who).reading.value) else known
        case Saves(_, data, result) =>
          if Refuses(Of(w, who), w.file, digest) || !Believes(result) then known else Some(Some(data))
        case Restarts(_) => None
  }

  /** What a process remembers is the digest of what it last knew. */
  lemma {:induction false} RemembersLastKnown(file: Content, events: seq<Event>, who: nat, digest: Content -> string)
    ensures var p := Of(Play(file, events, digest), who);
            var known := LastKnown(file, events, who, digest);
            p.have == known.Some? && (known.Some? ==> p.seen == digest(known.value))
  {
    if events != [] {
      RemembersLastKnown(file, events[..|events| - 1], who, digest);
    }
  }

  /** The write failed after truncating, and what it left is neither what was there nor what was to be there. */
  predicate Destroys(file: Content, data: string, w: WriteResult) {
    w.Torn? && Some(Prefix(data, w.left)) !in {file, Some(data)}
  }

  /** In every interleaving, a save by a process that has loaded is refused if the file does not hold the very contents
      this process last knew, so nobody else's change is ever replaced. Otherwise the file then holds the old or the new
      contents if and only if the write did not destroy both by failing after truncating. */
  lemma NoUpdateIsLost(file: Content, events: seq<Event>, i: nat, digest: Content -> string)
    requires Injective(digest) && i < |events| && events[i].Saves?
    requires LastKnown(file, events[..i], events[i].who, digest).Some?
    ensures var w, known := At(file, events, i, digest), LastKnown(file, events[..i], events[i].who, digest).value;
            var after, e := At(file, events, i + 1, digest).file, events[i];
            && (w.file != known ==> after == w.file)
            && (w.file == known ==> (after in {w.file, Some(e.data)} <==> !Destroys(w.file, e.data, e.result)))
            && (w.file == known && (Believes(e.result) || e.result == Unclear) ==> after == Some(e.data))
  {
    RemembersLastKnown(file, events[..i], events[i].who, digest);
    assert events[..i + 1][..i] == events[..i];
  }

  /** The contents change only by a save of somebody, to a part of its data, to all of it if and only if the write was
      not cut short, and only from contents that saver knew or, for a process that never loaded, blindly. */
  lemma ChangeHasKnowingWriter(file: Content, events: seq<Event>, i: nat, digest: Content -> string)
    requires Injective(digest) && i < |events|
    requires At(file, events, i + 1, digest).file != At(file, events, i, digest).file
    ensures events[i].Saves? && At(file, events, i + 1, digest).file.Some?
    ensures At(file, events, i + 1, digest).file.value <= events[i].data
    ensures At(file, events, i + 1, digest).file == Some(events[i].data) <==>
            !(events[i].result.Torn? && events[i].result.left < |events[i].data|)
    ensures LastKnown(file, events[..i], events[i].who, digest) in {None, Some(At(file, events, i, digest).file)}
  {
    RemembersLastKnown(file, events[..i], events[i].who, digest);
    assert events[..i + 1][..i] == events[..i];
    if events[i].Saves? && events[i].result.Torn? { PrefixSize(events[i].data, events[i].result.left); }
  }

  lemma PrefixSize(s: string, n: nat)
    ensures Prefix(s, n) <= s && (Prefix(s, n) == s <==> n >= |s|)
  {
    assert n < |s| ==> |Prefix(s, n)| < |s|;
  }

  // ---- what a refusal means ----

  /** Where in the history the unnoted reading of a process was taken. */
  function ReadPos(events: seq<Event>, who: nat): Option<nat> {
    if events == [] then None
    else
      var e := events[|events| - 1];
      if e.who != who || e.Saves? then ReadPos(events[..|events| - 1], who)
      else if e.Reads? then Some(|events| - 1)
      else None
  }

  /** Where in the history the contents a process last knew were the contents of the file. */
  function KnownPos(file: Content, events: seq<Event>, who: nat, digest: Content -> string): nat {
    if events == [] then 0
    else
      var front, e := events[..|events| - 1], events[|events| - 1];
      var w := Play(file, front, digest);
      if e.who == who && e.Notes? && ReadPos(front, who).Some? then ReadPos(front, who).value
      else if e.who == who && e.Saves? && !Refuses(Of(w, who), w.file, digest) && Believes(e.result) then |events|
      else KnownPos(file, front, who, digest)
  }

  lemma {:induction false} ReadingIsFromPos(file: Content, events: seq<Event>, who: nat, digest: Content -> string)
    ensures var p, pos := Of(Play(file, events, digest), who), ReadPos(events, who);
            && p.reading.Some? == pos.Some?
            && (pos.Some? ==> pos.value < |events| && p.reading.value == At(file, events, pos.value, digest).file)
  {
    if events != [] {
      var front := events[..|events| - 1];
      ReadingIsFromPos(file, front, who, digest);
      forall k | 0 <= k <= |front| ensures front[..k] == events[..k] {}
    }
  }

  /** The process saves, is not refused, and takes its data to be in the file. */
  predicate KnowsAnew(file: Content, front: seq<Event>, e: Event, who: nat, digest: Content -> string) {
    var w := Play(file, front, digest);
    e.who == who && e.Saves? && Believes(e.result) && !Refuses(Of(w, who), w.file, digest)
  }

  predicate FinishesLoad(front: seq<Event>, e: Event, who: nat) { e.who == who && e.Notes? && ReadPos(front, who).Some? }

  /** What a process knows after one more event: what its load read, what it saved, or what it knew before. */
  lemma KnownStep(file: Content, front: seq<Event>, e: Event, who: nat, digest: Content -> string)
    requires LastKnown(file, front + [e], who, digest).Some?
    ensures var events, known := front + [e], LastKnown(file, front + [e], who, digest).value;
            var pos := KnownPos(file, events, who, digest);
            if FinishesLoad(front, e, who) then
              ReadPos(front, who) == Some(pos) && pos < |front| && known == At(file, front, pos, digest).file
            else if KnowsAnew(file, front, e, who, digest) then pos == |events| && known == Play(file, events, digest).file
            else LastKnown(file, front, who, digest) == Some(known) && pos == KnownPos(file, front, who, digest)
  {
    assert (front + [e])[..|front|] == front;
    ReadingIsFromPos(file, front, who, digest);
  }

  lemma {:induction false} KnownWasThere(file: Content, events: seq<Event>, who: nat, digest: Content -> string)
    requires LastKnown(file, events, who, digest).Some?
    ensures KnownPos(file, events, who, digest) <= |events|
    ensures At(file, events, KnownPos(file, events, who, digest), digest).file == LastKnown(file, events, who, digest).value
  {
    var front, e := events[..|events| - 1], events[|events| - 1];
    assert events == front + [e] && events[..|events|] == events;
    KnownStep(file, front, e, who, digest);
    if !KnowsAnew(file, front, e, who, digest) && !FinishesLoad(front, e, who) { KnownWasThere(file, front, who, digest); }
    var k := KnownPos(file, events, who, digest);
    assert k <= |front| ==> front[..k] == events[..k];
  }

  /** Event j changed the file behind the back of a process: another process's save did, its own save that reported a
      failure, or its own save while a load of its was still unfinished. */
  ghost predicate Behind(file: Content, events: seq<Event>, j: int, who: nat, digest: Content -> string) {
    && 0 <= j < |events| && events[j].Saves?
    && At(file, events, j + 1, digest).file != At(file, events, j, digest).file
    && (events[j].who != who || !Believes(events[j].result) || ReadPos(events[..j], who).Some?)
  }

  lemma BehindLater(file: Content, events: seq<Event>, e: Event, j: int, who: nat, digest: Content -> string)
    requires Behind(file, events, j, who, digest)
    ensures Behind(file, events + [e], j, who, digest)
  {
    assert (events + [e])[..j] == events[..j] && (events + [e])[..j + 1] == events[..j + 1];
  }

  /** While a reading stays unnoted, any difference to it comes from such a change. */
  lemma {:induction false} ChangedWhileReading(file: Content, events: seq<Event>, who: nat, digest: Content -> string)
    requires ReadPos(events, who).Some?
    ensures ReadPos(events, who).value < |events|
    ensures Play(file, events, digest).file != At(file, events, ReadPos(events, who).value, digest).file ==>
              exists j :: j >= ReadPos(events, who).value && Behind(file, events, j, who, digest)
  {
    var n := |events| - 1;
    var front, e := events[..n], events[n];
    assert events == front + [e] && events[..n + 1] == events;
    if !(e.who == who && e.Reads?) {
      var r := ReadPos(front, who).value;
      ChangedWhileReading(file, front, who, digest);
      assert front[..r] == events[..r];
      if Play(file, front, digest).file != At(file, front, r, digest).file {
        var j :| j >= r && Behind(file, front, j, who, digest);
        BehindLater(file, front, e, j, who, digest);
      } else if Play(file, events, digest).file != Play(file, front, digest).file {
        assert Behind(file, events, n, who, digest);
      }
    }
  }

  /** A process that has loaded is refused exactly when the file differs from what it held where the process last knew
      it, and then something since then changed the file behind its back. */
  lemma {:induction false} RefusalHasCause(file: Content, events: seq<Event>, who: nat, digest: Content -> string)
    requires Injective(digest) && LastKnown(file, events, who, digest).Some?
    ensures var w, k := Play(file, events, digest), KnownPos(file, events, who, digest);
            && k <= |events|
            && (Refuses(Of(w, who), w.file, digest) <==> w.file != At(file, events, k, digest).file)
            && (Refuses(Of(w, who), w.file, digest) ==> exists j :: j >= k && Behind(file, events, j, who, digest))
  {
    RemembersLastKnown(file, events, who, digest);
    KnownWasThere(file, events, who, digest);
    DifferenceHasCause(file, events, who, digest);
  }

  lemma {:induction false} DifferenceHasCause(file: Content, events: seq<Event>, who: nat, digest: Content -> string)
    requires LastKnown(file, events, who, digest).Some?
    ensures Play(file, events, digest).file != LastKnown(file, events, who, digest).value ==>
              exists j :: j >= KnownPos(file, events, who, digest) && Behind(file, events, j, who, digest)
  {
    var front, e := events[..|events| - 1], events[|events| - 1];
    var k := KnownPos(file, events, who, digest);
    assert events == front + [e];
    KnownStep(file, front, e, who, digest);
    if FinishesLoad(front, e, who) {
      ChangedWhileReading(file, front, who, digest);
      if Play(file, front, digest).file != At(file, front, k, digest).file {
        var j :| j >= k && Behind(file, front, j, who, digest);
        BehindLater(file, front, e, j, who, digest);
      }
    } else if !KnowsAnew(file, front, e, who, digest) {
      DifferenceHasCause(file, front, who, digest);
      KnownWasThere(file, front, who, digest);
      CauseStays(file, front, e, who, digest);
    }
  }

  /** A step after which the process knows what it knew before. */
  lemma CauseStays(file: Content, front: seq<Event>, e: Event, who: nat, digest: Content -> string)
    requires LastKnown(file, front, who, digest).Some? && !KnowsAnew(file, front, e, who, digest)
    requires Play(file, front, digest).file != LastKnown(file, front, who, digest).value ==>
               exists j :: j >= KnownPos(file, front, who, digest) && Behind(file, front, j, who, digest)
    requires KnownPos(file, front, who, digest) <= |front|
    ensures Play(file, front + [e], digest).file != LastKnown(file, front, who, digest).value ==>
              exists j :: j >= KnownPos(file, front, who, digest) && Behind(file, front + [e], j, who, digest)
  {
    var events, k := front + [e], KnownPos(file, front, who, digest);
    assert events[..|front|] == front && events[..|front| + 1] == events;
    if Play(file, front, digest).file != LastKnown(file, front, who, digest).value {
      var j :| j >= k && Behind(file, front, j, who, digest);
      BehindLater(file, front, e, j, who, digest);
    } else if Play(file, events, digest).file != Play(file, front, digest).file {
      assert Behind(file, events, |front|, who, digest);
    }
  }

  // ---- what does get lost ----

  lemma PlayOn(file: Content, events: seq<Event>, e: Event, digest: Content -> string)
    ensures Play(file, events + [e], digest) == Step(Play(file, events, digest), e, digest)
  {
    assert (events + [e])[..|events|] == events;
  }

  /** A process that never loaded overwrites whatever is there. */
  lemma BlindSaveOverwrites(digest: Content -> string)
    ensures var first := [] + [Saves(1, "mine", Written)];
            && Play(None, first, digest).file == Some("mine")
            && Play(None, first + [Saves(2, "yours", Written)], digest).file == Some("yours")
  {
    PlayOn(None, [], Saves(1, "mine", Written), digest);
    PlayOn(None, [] + [Saves(1, "mine", Written)], Saves(2, "yours", Written), digest);
  }

  /** A process that has loaded, alone, on a file that can only be written in place: a write that fails leaves neither the
      old contents nor the new ones, and its next save is refused although nobody else wrote. */
  lemma TornSaveLosesBoth(digest: Content -> string)
    requires Injective(digest)
    ensures var loaded := [] + [Reads(1)] + [Notes(1)];
            var w := Play(Some("old"), loaded + [Saves(1, "new", Outcome(Impossible, InPlace(true, Some(1), true)))], digest);
            w.file == Some("n") && Refuses(Of(w, 1), w.file, digest)
  {
    var save := Saves(1, "new", Outcome(Impossible, InPlace(true, Some(1), true)));
    PlayOn(Some("old"), [], Reads(1), digest);
    PlayOn(Some("old"), [] + [Reads(1)], Notes(1), digest);
    PlayOn(Some("old"), [] + [Reads(1)] + [Notes(1)], save, digest);
    assert Prefix("new", 1) == "n";
    assert Some("n") != Some("old");
  }

  // ---- as objects ----

  class File {
    var content: Content

    /** Replace the file, or write through it; the caller learns which and how it went. */
    method Save(data: string, r: Replacement, p: InPlace) returns (result: WriteResult)
      modifies this
      ensures result == Outcome(r, p)
      ensures content == ContentAfter(old(content), data, result)
    {
      match r {
        case Done =>
          content := Some(data);
          return Written;
        case NotFlushed =>
          content := Some(data);
          return Partial;
        case StagingFailed =>
          return Kept;
        case Impossible =>
          if !p.openable {
            return Kept;
          }
          content := Some("");
          if p.failsAfter.Some? {
            content := Some(Prefix(data, p.failsAfter.value));
            return Torn(p.failsAfter.value);
          }
          content := Some(data);
          return if p.flushed then Partial else Unclear;
      }
    }
  }

  class Persister {
    var have: bool
    var seen: string
    const file: File
    const digest: Content -> string

    constructor (f: File, d: Content -> string)
      ensures !have && file == f && digest == d
    {
      have, seen, file, digest := false, "", f, d;
    }

    method Load() returns (data: Content)
      modifies this
      ensures data == file.content && have && seen == digest(data)
    {
      data := file.content;
      have, seen := true, digest(data);
    }

    /** Compare and write, under both locks. */
    method Save(data: string, r: Replacement, p: InPlace) returns (ok: bool)
      modifies this, file
      ensures var self, w := Process(old(have), old(seen), None), Outcome(r, p);
              && file.content == FileAfter(self, old(file.content), data, w, digest)
              && Process(have, seen, None) == ProcessAfter(self, old(file.content), data, w, digest)
              && (ok <==> !Refuses(self, old(file.content), digest) && w == Written)
    {
      if have && digest(file.content) != seen {
        return false;
      }
      var w := file.Save(data, r, p);
      if w == Written || w == Partial {
        have, seen := true, digest(Some(data));
      }
      return w == Written;
    }
  }
}
