/** How the authority's rollout state reaches the Edges (authrollout/distribution.go): signed distributions that the
    network may lose, repeat, delay and reorder, one durable cache per Edge, and a receiver-local lease that bounds
    the use of legacy evidence. */
module AuthEdges {
  import opened Text
  import opened AuthRollout

  datatype Distribution = Distribution(state: State, issuedAt: int, expiresAt: int)

  /** One Edge: the durable cache, and the lease that a restart forgets. */
  datatype Edge = Edge(cache: Blob<Distribution>, lease: Lease)

  datatype Lease = Lease(revision: nat, receivedAt: int, until: int)

  const NO_LEASE: Lease := Lease(0, NO_TIME, NO_TIME)

  predicate ValidDistribution(d: Distribution) {
    ValidState(d.state) && d.issuedAt != NO_TIME && 0 < d.expiresAt - d.issuedAt <= FRESH_FOR
  }

  /** What the authority sends at an instant. */
  function Distribute(s: Option<State>, now: int): Option<Distribution> {
    if s.Some? then Some(Distribution(s.value, now, now + FRESH_FOR)) else None
  }

  // ---- adoption ----

  predicate Conflicts(a: State, z: State) {
    || a.manifest.deployment != z.manifest.deployment || a.revision > z.revision
    || a.manifest.generation > z.manifest.generation || (a.complete && !z.complete)
    || !(a.enabled <= z.enabled)
    || (a.revision == z.revision && a != z)
  }

  /** The edit of the cache that an incoming distribution asks for. An empty file is no cache; a torn one is an error. */
  function Decide(cache: Blob<Distribution>, next: Distribution): Result<Distribution> {
    if !ValidDistribution(next) then Err(Invalid)
    else
      match cache
      case Empty => Ok(next)
      case Torn => Err(Invalid)
      case Whole(held) =>
        if !ValidState(held.state) then Err(Invalid)
        else if Conflicts(held.state, next.state) then Err(Conflict)
        else if held.state.revision == next.state.revision then Err(Unchanged)
        else Ok(next)
  }

  /** Only a confirmed write grants a lease. */
  function Adopted(e: Edge, next: Distribution, now: int, save: SaveResult): Edge {
    if Decide(e.cache, next).Err? then e
    else
      Edge(BlobAfter(e.cache, next, save),
           if save == Written then Lease(next.state.revision, now, now + (next.expiresAt - next.issuedAt)) else e.lease)
  }

  // ---- use ----

  /** The lease counts for the revision it was granted for and for no other. */
  function LeaseOf(e: Edge): Lease {
    if e.cache.Whole? && e.cache.value.state.revision == e.lease.revision then e.lease else NO_LEASE
  }

  predicate AwaitsFirstReport(s: State, n: Member) {
    !n.retired && n.id !in s.observed && n.version in {"awaiting-first-report", "unknown"}
  }

  /** The state allows evidence of the old form for this provider; `key` is the provider's digest key. */
  predicate AllowsLegacy(s: State, key: string, digest: string) {
    && !s.complete && digest != ""
    && s.manifest.providers.Some? && key in s.manifest.providers.value && s.manifest.providers.value[key] == digest
    && forall i :: 0 <= i < |s.manifest.members| ==> !AwaitsFirstReport(s, s.manifest.members[i])
  }

  /** May the Edge accept such evidence now? */
  predicate AcceptLegacy(e: Edge, key: string, digest: string, now: int) {
    && e.cache.Whole? && ValidDistribution(e.cache.value)
    && LeaseOf(e).receivedAt != NO_TIME && LeaseOf(e).receivedAt <= now < LeaseOf(e).until
    && AllowsLegacy(e.cache.value.state, key, digest)
  }

  predicate FeatureEnabled(e: Edge, feature: string) {
    && e.cache.Whole? && ValidDistribution(e.cache.value) && e.cache.value.state.complete
    && feature in e.cache.value.state.enabled
  }

  /** The Edge's cache as the object the callers share. */
  class Cache {
    var cache: Blob<Distribution>
    var localRevision: nat
    var leaseRevision: nat
    var receivedAt: int
    var leaseUntil: int

    ghost function View(): Edge reads this { Edge(cache, Lease(leaseRevision, receivedAt, leaseUntil)) }

    /** A process that starts on what an earlier one stored. */
    constructor (stored: Blob<Distribution>)
      ensures View() == Edge(stored, NO_LEASE) && localRevision == 0
    {
      cache, localRevision := stored, 0;
      leaseRevision, receivedAt, leaseUntil := 0, NO_TIME, NO_TIME;
    }

    method Adopt(next: Distribution, now: int, save: SaveResult) returns (error: Option<Error>)
      modifies this
      ensures View() == Adopted(old(View()), next, now, save)
      ensures var decision := Decide(old(cache), next);
              error == None <==> decision == Err(Unchanged) || (decision.Ok? && save == Written)
      ensures localRevision == old(localRevision) + if Decide(old(cache), next).Ok? && save == Written then 1 else 0
    {
      match Decide(cache, next) {
        case Err(e) =>
          return if e == Unchanged then None else Some(e);
        case Ok(_) =>
          cache := BlobAfter(cache, next, save);
          if save != Written {
            return Some(Invalid);
          }
          localRevision := localRevision + 1;
          leaseRevision, receivedAt := next.state.revision, now;
          leaseUntil := now + (next.expiresAt - next.issuedAt);
          return None;
      }
    }
  }

  // ---- the whole system ----

  /** `ops` are the edits that reached the authority, `net` everything it ever sent. */
  datatype World = World(ops: seq<Op>, net: set<Distribution>, edges: seq<Edge>)

  datatype Event =
    | Edited(op: Op)
    | Sent(at: int)
    | Delivered(edge: nat, d: Distribution, at: int, save: SaveResult)
    | Restarted(edge: nat)

  function Step(w: World, event: Event): World {
    match event
    case Edited(op) => w.(ops := w.ops + [op])
    case Sent(at) =>
      var d := Distribute(After(w.ops), at);
      if d.Some? then w.(net := w.net + {d.value}) else w
    case Delivered(edge, d, at, save) =>
      if edge < |w.edges| && d in w.net
      then w.(edges := w.edges[edge := Adopted(w.edges[edge], d, at, save)])
      else w
    case Restarted(edge) =>
      if edge < |w.edges| then w.(edges := w.edges[edge := w.edges[edge].(lease := NO_LEASE)]) else w
  }

  function Play(w: World, events: seq<Event>): World {
    if events == [] then w else Step(Play(w, events[..|events| - 1]), events[|events| - 1])
  }

  /** The authority held this state at some point. */
  ghost predicate Authentic(ops: seq<Op>, s: State) {
    exists k :: HeldAt(ops, k, s)
  }

  ghost predicate HeldAt(ops: seq<Op>, k: int, s: State) {
    0 <= k <= |ops| && After(ops[..k]) == Some(s)
  }

  ghost predicate AuthenticCache(ops: seq<Op>, e: Edge) {
    e.cache.Whole? ==> Authentic(ops, e.cache.value.state)
  }

  ghost predicate Sound(w: World) {
    && (forall d :: d in w.net ==> Authentic(w.ops, d.state))
    && (forall i :: 0 <= i < |w.edges| ==> AuthenticCache(w.ops, w.edges[i]))
  }

  /** Nothing edited, nothing sent, nothing cached: where every deployment starts. */
  ghost predicate Initial(w: World) {
    && w.ops == [] && w.net == {}
    && forall i :: 0 <= i < |w.edges| ==> w.edges[i] == Edge(Empty, NO_LEASE)
  }

  lemma InitialSound(w: World)
    requires Initial(w)
    ensures Sound(w) && forall i :: 0 <= i < |w.edges| ==> ShortLease(w.edges[i])
  {
  }

  // ---- what the authority's history gives ----

  lemma AuthenticStays(ops: seq<Op>, op: Op, s: State)
    requires Authentic(ops, s)
    ensures Authentic(ops + [op], s)
  {
    var k :| HeldAt(ops, k, s);
    assert (ops + [op])[..k] == ops[..k];
    assert HeldAt(ops + [op], k, s);
  }

  lemma CurrentIsAuthentic(ops: seq<Op>)
    requires After(ops).Some?
    ensures Authentic(ops, After(ops).value)
  {
    assert ops[..|ops|] == ops;
    assert HeldAt(ops, |ops|, After(ops).value);
  }

  lemma AuthenticIsValid(ops: seq<Op>, s: State)
    requires Authentic(ops, s)
    ensures ValidState(s)
  {
    var k :| HeldAt(ops, k, s);
    HistoryReachable(ops[..k]);
  }

  /** As long as no save empties the authority's file, no Edge can hold anything later than what the authority holds. */
  lemma NeverAhead(ops: seq<Op>, s: State)
    requires Authentic(ops, s)
    ensures NeverEmptied(ops, 0) ==> After(ops).Some? && NotAfter(s, After(ops).value)
  {
    var k :| HeldAt(ops, k, s);
    HistoryNeverGoesBack(ops, k);
  }

  lemma HeldInOrder(ops: seq<Op>, j: int, s: State, k: int, t: State)
    requires HeldAt(ops, j, s) && HeldAt(ops, k, t) && j <= k && NeverEmptied(ops, 0)
    ensures NotAfter(s, t)
  {
    assert ops[..k][..j] == ops[..j];
    HistoryNeverGoesBack(ops[..k], j);
  }

  /** Any two states the authority held are then in order, and the revisions tell which order. */
  lemma RevisionsOrder(ops: seq<Op>, s: State, t: State)
    requires Authentic(ops, s) && Authentic(ops, t)
    ensures NeverEmptied(ops, 0) ==> (s.revision <= t.revision <==> NotAfter(s, t)) && (s.revision == t.revision <==> s == t)
  {
    if NeverEmptied(ops, 0) {
      var j :| HeldAt(ops, j, s);
      var k :| HeldAt(ops, k, t);
      if j <= k { HeldInOrder(ops, j, s, k, t); }
      if k <= j { HeldInOrder(ops, k, t, j, s); }
    }
  }

  // ---- adoption of what the authority sent ----

  /** Whatever the authority's history, only a later state is ever adopted over a cached one. As long as no save empties
      the authority's file, every newer distribution is adopted, a repeat changes nothing and an older one is refused:
      exactly by revision. */
  lemma AdoptsExactlyTheNewer(ops: seq<Op>, cache: Distribution, next: Distribution)
    requires Authentic(ops, cache.state) && Authentic(ops, next.state)
    requires next.issuedAt != NO_TIME && 0 < next.expiresAt - next.issuedAt <= FRESH_FOR
    ensures Decide(Whole(cache), next).Ok? ==>
              NotAfter(cache.state, next.state) && cache.state.revision < next.state.revision
    ensures NeverEmptied(ops, 0) ==>
              && (Decide(Whole(cache), next) == Ok(next) <==> next.state.revision > cache.state.revision)
              && (Decide(Whole(cache), next) == Err(Unchanged) <==> next.state.revision == cache.state.revision)
              && (Decide(Whole(cache), next) == Err(Conflict) <==> next.state.revision < cache.state.revision)
  {
    AuthenticIsValid(ops, cache.state);
    AuthenticIsValid(ops, next.state);
    RevisionsOrder(ops, cache.state, next.state);
  }

  /** What an Edge that holds something may become while its file is not emptied: the cache moves forward only or
      becomes unreadable for good, and a lease is new only for a revision that is new to this Edge. */
  ghost predicate Forward(a: Edge, b: Edge) {
    && (a.cache == Torn ==> b.cache == Torn)
    && (a.cache.Whole? ==>
          || b.cache == Torn
          || (&& b.cache.Whole? && NotAfter(a.cache.value.state, b.cache.value.state)
              && (b.cache.value.state.revision == a.cache.value.state.revision ==>
                    LeaseOf(b) == LeaseOf(a) || LeaseOf(b) == NO_LEASE)))
  }

  lemma AdoptedForward(e: Edge, next: Distribution, at: int, save: SaveResult)
    requires save != Emptied || Decide(e.cache, next).Err?
    ensures Forward(e, Adopted(e, next, at, save))
  {
  }

  lemma ForwardTransitive(a: Edge, b: Edge, c: Edge)
    requires Forward(a, b) && Forward(b, c)
    ensures Forward(a, c)
  {
  }

  lemma StepSound(w: World, event: Event)
    requires Sound(w)
    ensures Sound(Step(w, event))
  {
    match event
    case Edited(op) =>
      forall s | Authentic(w.ops, s) ensures Authentic(w.ops + [op], s) { AuthenticStays(w.ops, op, s); }
    case Sent(_) =>
      if After(w.ops).Some? { CurrentIsAuthentic(w.ops); }
    case Delivered(_, _, _, _) =>
    case Restarted(_) =>
  }

  /** The step is an adoption at Edge i whose save empties the file. */
  predicate Empties(w: World, event: Event, i: nat) {
    && i < |w.edges| && event.Delivered? && event.edge == i && event.d in w.net && event.save == Emptied
    && Decide(w.edges[i].cache, event.d).Ok?
  }

  lemma StepForward(w: World, event: Event, i: nat)
    requires i < |w.edges|
    ensures |Step(w, event).edges| == |w.edges|
    ensures !Empties(w, event, i) ==> Forward(w.edges[i], Step(w, event).edges[i])
    ensures Empties(w, event, i) ==> Step(w, event).edges[i].cache == Empty
  {
    match event
    case Edited(_) =>
    case Sent(_) =>
    case Delivered(edge, d, at, save) =>
      if edge == i && d in w.net && !Empties(w, event, i) { AdoptedForward(w.edges[i], d, at, save); }
    case Restarted(_) =>
  }

  // ---- whole runs ----

  /** For any loss, repetition, delay or reordering: every Edge always holds a state the authority held. */
  lemma {:induction false} RunSound(w: World, events: seq<Event>)
    requires Sound(w)
    ensures Sound(Play(w, events)) && |Play(w, events).edges| == |w.edges|
  {
    if events != [] {
      RunSound(w, events[..|events| - 1]);
      StepSound(Play(w, events[..|events| - 1]), events[|events| - 1]);
    }
  }

  /** No save of the run empties the file of Edge i. */
  ghost predicate FileKept(w: World, events: seq<Event>, i: nat) {
    forall n :: 0 <= n < |events| ==> !Empties(Play(w, events[..n]), events[n], i)
  }

  lemma FileKeptFront(w: World, events: seq<Event>, i: nat, n: nat)
    requires FileKept(w, events, i) && n <= |events|
    ensures FileKept(w, events[..n], i)
  {
    forall m | 0 <= m < n ensures !Empties(Play(w, events[..n][..m]), events[..n][m], i) {
      assert events[..n][..m] == events[..m];
    }
  }

  /** Whatever arrives and whatever the authority did, an Edge whose file is not emptied never goes back: not in
      revision, generation, completion or enabled features. */
  lemma EdgesNeverGoBack(w: World, events: seq<Event>, i: nat)
    requires i < |w.edges|
    ensures |Play(w, events).edges| == |w.edges|
    ensures FileKept(w, events, i) ==> Forward(w.edges[i], Play(w, events).edges[i])
  {
    EdgesStay(w, events);
    if FileKept(w, events, i) { KeptGoesForward(w, events, i); }
  }

  lemma {:induction false} EdgesStay(w: World, events: seq<Event>)
    ensures |Play(w, events).edges| == |w.edges|
  {
    if events != [] { EdgesStay(w, events[..|events| - 1]); }
  }

  lemma {:induction false} KeptGoesForward(w: World, events: seq<Event>, i: nat)
    requires i < |w.edges| && FileKept(w, events, i)
    ensures i < |Play(w, events).edges| && Forward(w.edges[i], Play(w, events).edges[i])
  {
    if events != [] {
      var n := |events| - 1;
      FileKeptFront(w, events, i, n);
      KeptGoesForward(w, events[..n], i);
      OneStepOnward(w.edges[i], Play(w, events[..n]), events[n], i);
    }
  }

  lemma OneStepOnward(first: Edge, w: World, event: Event, i: nat)
    requires i < |w.edges| && Forward(first, w.edges[i]) && !Empties(w, event, i)
    ensures |Step(w, event).edges| == |w.edges| && Forward(first, Step(w, event).edges[i])
  {
    StepForward(w, event, i);
    ForwardTransitive(first, w.edges[i], Step(w, event).edges[i]);
  }

  ghost predicate HoldsOn(w: World, events: seq<Event>, i: nat, n: nat)
    requires i < |w.edges| && n <= |events|
  {
    var z := Play(w, events[..n]);
    |z.edges| == |w.edges| && Forward(w.edges[i], z.edges[i])
  }

  lemma KeptHoldsOn(w: World, events: seq<Event>, i: nat, n: nat)
    requires i < |w.edges| && n <= |events| && FileKept(w, events, i)
    ensures HoldsOn(w, events, i, n)
  {
    FileKeptFront(w, events, i, n);
    EdgesNeverGoBack(w, events[..n], i);
  }

  lemma EmptiedDoesNotHoldOn(w: World, events: seq<Event>, i: nat, n: nat)
    requires i < |w.edges| && w.edges[i].cache.Whole? && n < |events| && Empties(Play(w, events[..n]), events[n], i)
    ensures !HoldsOn(w, events, i, n + 1)
  {
    StepForward(Play(w, events[..n]), events[n], i);
    assert events[..n + 1][..n] == events[..n];
    assert Play(w, events[..n + 1]).edges[i].cache == Empty;
  }

  /** An Edge that holds a state holds on to it, or to a later one, or refuses to be read, at every point of a run if
      and only if no save of the run empties its file. */
  lemma EdgeHoldsOnIff(w: World, events: seq<Event>, i: nat)
    requires i < |w.edges| && w.edges[i].cache.Whole?
    ensures (forall n :: 0 <= n <= |events| ==> HoldsOn(w, events, i, n)) <==> FileKept(w, events, i)
  {
    if FileKept(w, events, i) {
      forall n | 0 <= n <= |events| ensures HoldsOn(w, events, i, n) { KeptHoldsOn(w, events, i, n); }
    } else {
      var n :| 0 <= n < |events| && Empties(Play(w, events[..n]), events[n], i);
      EmptiedDoesNotHoldOn(w, events, i, n);
    }
  }

  lemma PlayTwo(w: World, a: Event, b: Event)
    ensures Play(w, [a, b]) == Step(Step(w, a), b)
  {
    assert [a, b][..1] == [a] && [a][..0] == [];
    assert Play(w, [a]) == Step(w, a);
  }

  lemma AnythingIntoEmpty(e: Edge, d: Distribution, at: int, key: string, digest: string)
    requires e.cache == Empty && ValidDistribution(d) && at != NO_TIME
    ensures var f := Adopted(e, d, at, Written);
            && f.cache == Whole(d) && LeaseOf(f) == Lease(d.state.revision, at, at + (d.expiresAt - d.issuedAt))
            && (AcceptLegacy(f, key, digest, at) <==> AllowsLegacy(d.state, key, digest))
  {
  }

  /** And it does go back otherwise: with its file emptied, the Edge takes any valid distribution still on the network,
      however old, under a new lease, and accepts legacy evidence if that state allows it, whatever it held before. */
  lemma EmptiedEdgeGoesBack(w: World, i: nat, newer: Distribution, stale: Distribution, at: int, key: string, digest: string)
    requires i < |w.edges| && w.edges[i].cache.Whole? && {newer, stale} <= w.net && at != NO_TIME
    requires Decide(w.edges[i].cache, newer).Ok? && ValidDistribution(stale)
    ensures var z := Play(w, [Delivered(i, newer, at, Emptied), Delivered(i, stale, at, Written)]);
            && |z.edges| == |w.edges| && z.edges[i].cache == Whole(stale)
            && LeaseOf(z.edges[i]) == Lease(stale.state.revision, at, at + (stale.expiresAt - stale.issuedAt))
            && (AcceptLegacy(z.edges[i], key, digest, at) <==> AllowsLegacy(stale.state, key, digest))
  {
    var first, second := Delivered(i, newer, at, Emptied), Delivered(i, stale, at, Written);
    PlayTwo(w, first, second);
    var e := Adopted(w.edges[i], newer, at, Emptied);
    assert Step(w, first).edges[i] == e;
    AnythingIntoEmpty(e, stale, at, key, digest);
    assert Step(Step(w, first), second).edges[i] == Adopted(e, stale, at, Written);
  }

  /** So it is from the start of every deployment, and no lease is ever longer than the freshness limit. */
  lemma EveryDeploymentSound(w: World, events: seq<Event>)
    requires Initial(w)
    ensures Sound(Play(w, events))
    ensures forall i :: 0 <= i < |Play(w, events).edges| ==> ShortLease(Play(w, events).edges[i])
  {
    InitialSound(w);
    RunSound(w, events);
    LeasesStayShort(w, events);
  }

  /** As long as no save empties the authority's file, two Edges, or one Edge and the authority, that name the same
      revision hold the same state. */
  lemma SameRevisionSameState(w: World, events: seq<Event>, i: nat, j: nat)
    requires Sound(w) && i < |w.edges| && j < |w.edges|
    ensures var z := Play(w, events);
            && |z.edges| == |w.edges|
            && (NeverEmptied(z.ops, 0) && z.edges[i].cache.Whole? && z.edges[j].cache.Whole? ==>
                  (z.edges[i].cache.value.state.revision <= z.edges[j].cache.value.state.revision <==>
                   NotAfter(z.edges[i].cache.value.state, z.edges[j].cache.value.state)))
            && (NeverEmptied(z.ops, 0) && z.edges[i].cache.Whole? ==>
                  After(z.ops).Some? && NotAfter(z.edges[i].cache.value.state, After(z.ops).value))
  {
    var z := Play(w, events);
    RunSound(w, events);
    if z.edges[i].cache.Whole? {
      NeverAhead(z.ops, z.edges[i].cache.value.state);
      if z.edges[j].cache.Whole? {
        RevisionsOrder(z.ops, z.edges[i].cache.value.state, z.edges[j].cache.value.state);
      }
    }
  }

  /** Once an Edge holds a completed rollout, and as long as its file is not emptied, it accepts no legacy evidence
      again, whatever arrives and whenever. */
  lemma CompletionEndsLegacy(w: World, events: seq<Event>, i: nat, key: string, digest: string, now: int)
    requires i < |w.edges| && w.edges[i].cache.Whole? && w.edges[i].cache.value.state.complete
    ensures |Play(w, events).edges| == |w.edges|
    ensures FileKept(w, events, i) ==> !AcceptLegacy(Play(w, events).edges[i], key, digest, now)
  {
    EdgesNeverGoBack(w, events, i);
  }

  /** A lease is granted once per revision: as long as an Edge stays on one revision and its file is not emptied, repeats
      do not extend it, and a lease once lost to a restart does not come back. */
  lemma RepeatsNeverExtendLease(w: World, events: seq<Event>, i: nat)
    requires i < |w.edges| && w.edges[i].cache.Whole?
    ensures var z := Play(w, events);
            && |z.edges| == |w.edges|
            && (FileKept(w, events, i) && z.edges[i].cache.Whole?
                && z.edges[i].cache.value.state.revision == w.edges[i].cache.value.state.revision ==>
                  LeaseOf(z.edges[i]) == LeaseOf(w.edges[i]) || LeaseOf(z.edges[i]) == NO_LEASE)
  {
    EdgesNeverGoBack(w, events, i);
  }

  ghost predicate ShortLease(e: Edge) {
    e.lease.until - e.lease.receivedAt <= FRESH_FOR
  }

  lemma {:induction false} LeasesStayShort(w: World, events: seq<Event>)
    requires forall i :: 0 <= i < |w.edges| ==> ShortLease(w.edges[i])
    ensures forall i :: 0 <= i < |Play(w, events).edges| ==> ShortLease(Play(w, events).edges[i])
  {
    if events != [] {
      LeasesStayShort(w, events[..|events| - 1]);
    }
  }

  /** All the instants at which an Edge whose file is not emptied accepts legacy evidence under one revision lie within
      one freshness period: an Edge cut off from the authority stops accepting it. */
  lemma LegacyWindowIsBounded(
    w: World, events: seq<Event>, i: nat, key: string, digest: string, now: int, key': string, digest': string, now': int)
    requires i < |w.edges| && forall j :: 0 <= j < |w.edges| ==> ShortLease(w.edges[j])
    requires |Play(w, events).edges| == |w.edges|
    requires AcceptLegacy(w.edges[i], key, digest, now) && AcceptLegacy(Play(w, events).edges[i], key', digest', now')
    requires w.edges[i].cache.value.state.revision == Play(w, events).edges[i].cache.value.state.revision
    ensures FileKept(w, events, i) ==> -FRESH_FOR < now' - now < FRESH_FOR
  {
    RepeatsNeverExtendLease(w, events, i);
  }

  /** A feature reported enabled at an Edge was activated at the authority, when every non-retired member of that
      census had advertised it within the freshness limit. */
  lemma FeatureAtEdgeWasActivated(w: World, events: seq<Event>, i: nat, feature: string)
    requires Sound(w) && i < |Play(w, events).edges| && FeatureEnabled(Play(w, events).edges[i], feature)
    ensures exists k :: ActivatedAt(Play(w, events).ops, k, feature)
  {
    var z := Play(w, events);
    RunSound(w, events);
    HeldFeatureWasActivated(z.ops, z.edges[i].cache.value.state, feature);
  }

  lemma HeldFeatureWasActivated(ops: seq<Op>, s: State, feature: string)
    requires Authentic(ops, s) && feature in s.enabled
    ensures exists k :: ActivatedAt(ops, k, feature)
  {
    var n :| HeldAt(ops, n, s);
    EnabledWasActivated(ops[..n], feature);
    var k :| ActivatedAt(ops[..n], k, feature);
    assert ops[..n][..k] == ops[..k];
    assert ActivatedAt(ops, k, feature);
  }
}
