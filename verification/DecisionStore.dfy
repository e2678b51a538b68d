/** The access-decision store (accessdecision/store.go): decisions of requests in flight are pinned, finished ones
    linger for a grace period and are bounded in number. The store keeps a map, a recency list and a counter; what
    it promises is stated on a plain map from id to "pinned" or "last seen". */
module DecisionStore {
  import opened Text

  /** `body` stands for everything in a decision that the store does not look at. */
  datatype Decision = Decision(id: string, body: string)

  // ---- what the store promises ----

  datatype Kept = Pinned(decision: Decision) | Tail(decision: Decision, seen: int)

  type View = map<string, Kept>

  datatype Limits = Limits(capacity: int, ttl: int)

  predicate Expired(k: Kept, now: int, limits: Limits) { k.Tail? && limits.ttl > 0 && k.seen < now - limits.ttl }

  function Tails(v: View): set<string> { set id | id in v && v[id].Tail? }

  /** The unpinned decisions still within their grace. */
  function Live(v: View, now: int, limits: Limits): set<string> {
    set id | id in v && v[id].Tail? && !Expired(v[id], now, limits)
  }

  /** Nothing but expired decisions, and then the least recent ones down to the capacity, is given up. */
  ghost predicate Evicts(v: View, w: View, now: int, limits: Limits) {
    && (forall id :: id in w ==> id in v && w[id] == v[id])
    && (forall id :: id in v && v[id].Pinned? ==> id in w)
    && Tails(w) <= Live(v, now, limits)
    && |Tails(w)| == (if 0 < limits.capacity < |Live(v, now, limits)| then limits.capacity else |Live(v, now, limits)|)
    && (forall gone, kept :: gone in Live(v, now, limits) - Tails(w) && kept in Tails(w) ==> v[gone].seen <= v[kept].seen)
  }

  datatype Op = Upsert(decision: Decision) | MarkInFlight(decision: Decision) | MarkComplete(id: string) | Get(id: string)

  /** The id an operation is about. */
  function Subject(op: Op): string {
    match op
    case Upsert(d) => d.id
    case MarkInFlight(d) => d.id
    case MarkComplete(id) => id
    case Get(id) => id
  }

  /** What an operation does before anything is evicted. */
  function Recorded(v: View, op: Op, now: int): View {
    match op
    case Upsert(d) => v[d.id := Tail(d, now)]
    case MarkInFlight(d) => v[d.id := Pinned(d)]
    case MarkComplete(id) => if id in v then v[id := Tail(v[id].decision, now)] else v
    case Get(id) => if id in v && v[id].Tail? then v[id := Tail(v[id].decision, now)] else v
  }

  /** One operation, with the two readings of the clock it makes. A lookup evicts nothing. */
  ghost predicate Does(v: View, op: Op, now: int, later: int, w: View, limits: Limits) {
    if op.Get? then w == Recorded(v, op, now) else Evicts(Recorded(v, op, now), w, later, limits)
  }

  // ---- consequences over whole histories ----

  datatype Event = Event(op: Op, now: int, later: int)

  ghost predicate History(views: seq<View>, events: seq<Event>, limits: Limits) {
    && |views| == |events| + 1
    && forall i :: 0 <= i < |events| ==> Does(views[i], events[i].op, events[i].now, events[i].later, views[i + 1], limits)
  }

  /** A decision in flight stays, unchanged, through every operation on other ids, however many there are. */
  lemma {:induction false} PinnedSurvives(views: seq<View>, events: seq<Event>, limits: Limits, id: string, n: nat)
    requires History(views, events, limits) && n <= |events|
    requires id in views[0] && views[0][id].Pinned?
    requires forall i :: 0 <= i < n ==> Subject(events[i].op) != id
    ensures id in views[n] && views[n][id] == views[0][id]
  {
    if n > 0 {
      PinnedSurvives(views, events, limits, id, n - 1);
      assert Does(views[n - 1], events[n - 1].op, events[n - 1].now, events[n - 1].later, views[n], limits);
    }
  }

  /** The unpinned decisions stay within the capacity, in flight ones are never counted. */
  lemma {:induction false} CapacityHolds(views: seq<View>, events: seq<Event>, limits: Limits, n: nat)
    requires History(views, events, limits) && n <= |events| && limits.capacity > 0
    requires |Tails(views[0])| <= limits.capacity
    ensures |Tails(views[n])| <= limits.capacity
  {
    if n > 0 {
      CapacityHolds(views, events, limits, n - 1);
      var e := events[n - 1];
      assert Does(views[n - 1], e.op, e.now, e.later, views[n], limits);
      if e.op.Get? {
        assert Tails(views[n]) == Tails(views[n - 1]);
      }
    }
  }

  /** A decision is lost only for a reason: it had expired, or capacity many others were at least as recent. */
  lemma LostOnlyForCause(v: View, w: View, now: int, limits: Limits, id: string)
    requires Evicts(v, w, now, limits) && id in v && id !in w
    ensures v[id].Tail?
    ensures Expired(v[id], now, limits)
         || (limits.capacity > 0 && |Tails(w)| == limits.capacity
             && forall other :: other in Tails(w) ==> v[id].seen <= v[other].seen)
  {
    if !Expired(v[id], now, limits) {
      assert id in Live(v, now, limits) - Tails(w);
      if |Tails(w)| == |Live(v, now, limits)| {
        SubsetOfSameSize(Tails(w), Live(v, now, limits));
      }
    }
  }

  /** When no two unpinned decisions were last seen at one instant, what is left is determined. */
  lemma EvictionIsDetermined(v: View, w: View, x: View, now: int, limits: Limits)
    requires Evicts(v, w, now, limits) && Evicts(v, x, now, limits)
    requires forall a, b :: a in Tails(v) && b in Tails(v) && a != b ==> v[a].seen != v[b].seen
    ensures w == x
  {
    if Tails(w) <= Tails(x) {
      SubsetOfSameSize(Tails(w), Tails(x));
    } else if Tails(x) <= Tails(w) {
      SubsetOfSameSize(Tails(x), Tails(w));
    }
    assert Tails(w) == Tails(x);
    forall id ensures id in w <==> id in x { assert id in Tails(w) <==> id in Tails(x); }
  }

  lemma {:induction false} SubsetOfSameSize(a: set<string>, b: set<string>)
    requires a <= b && |a| == |b|
    ensures a == b
  {
    forall x | x in b ensures x in a {
      if x !in a { SubsetSize(a, b - {x}); }
    }
  }

  // ---- the representation ----

  /** `pinned` is the absence of a list element; `seen` means nothing while pinned. */
  datatype Node = Node(decision: Decision, seen: int, pinned: bool)

  type Nodes = map<string, Node>

  function Abstract(nodes: Nodes): View {
    map id | id in nodes :: if nodes[id].pinned then Pinned(nodes[id].decision) else Tail(nodes[id].decision, nodes[id].seen)
  }

  function PinnedIds(nodes: Nodes): set<string> { set id | id in nodes && nodes[id].pinned }

  ghost predicate Distinct(order: seq<string>) {
    forall i, j :: 0 <= i < j < |order| ==> order[i] != order[j]
  }

  /** The list holds exactly the unpinned ids, each once. */
  ghost predicate Lists(nodes: Nodes, order: seq<string>) {
    Distinct(order) && forall id :: id in order <==> id in nodes && !nodes[id].pinned
  }

  function Seen(nodes: Nodes, id: string): int { if id in nodes then nodes[id].seen else 0 }

  /** Front to back, least recently active first. */
  ghost predicate Ascending(nodes: Nodes, order: seq<string>) {
    forall i, j :: 0 <= i < j < |order| ==> Seen(nodes, order[i]) <= Seen(nodes, order[j])
  }

  ghost predicate Consistent(nodes: Nodes, order: seq<string>, clock: int) {
    && Lists(nodes, order) && Ascending(nodes, order)
    && forall i :: 0 <= i < |order| ==> Seen(nodes, order[i]) <= clock
  }

  lemma {:induction false} DistinctCount(order: seq<string>)
    requires Distinct(order)
    ensures |set id | id in order| == |order|
  {
    if order != [] {
      var front := order[..|order| - 1];
      DistinctCount(front);
      assert (set id | id in order) == (set id | id in front) + {order[|order| - 1]};
    }
  }

  /** The list without the element at i. */
  function Without(order: seq<string>, i: nat): seq<string>
    requires i < |order|
  {
    order[..i] + order[i + 1..]
  }

  lemma WithoutKeeps(nodes: Nodes, order: seq<string>, clock: int, i: nat)
    requires Consistent(nodes, order, clock) && i < |order|
    ensures Distinct(Without(order, i)) && Ascending(nodes, Without(order, i))
    ensures forall id :: id in Without(order, i) <==> id in order && id != order[i]
    ensures forall j :: 0 <= j < |order| - 1 ==> Seen(nodes, Without(order, i)[j]) <= clock
  {
    var rest := Without(order, i);
    forall id | id in order && id != order[i] ensures id in rest {
      var j :| 0 <= j < |order| && order[j] == id;
      assert rest[if j < i then j else j - 1] == id;
    }
  }

  /** Activity on an id: whatever the list was without it, the id goes to the back. */
  lemma TouchKeeps(nodes: Nodes, rest: seq<string>, clock: int, id: string, d: Decision, now: int)
    requires Distinct(rest) && Ascending(nodes, rest) && clock <= now
    requires forall x :: x in rest <==> x in nodes && !nodes[x].pinned && x != id
    requires forall j :: 0 <= j < |rest| ==> Seen(nodes, rest[j]) <= clock
    ensures Consistent(nodes[id := Node(d, now, false)], rest + [id], now)
  {
    var order, next := rest + [id], nodes[id := Node(d, now, false)];
    forall j | 0 <= j < |rest| ensures Seen(next, order[j]) == Seen(nodes, rest[j]) && order[j] != id {
      assert rest[j] in rest;
    }
    forall x ensures x in order <==> x in next && !next[x].pinned {
      assert x in order <==> x in rest || x == id;
    }
  }

  /** An id that leaves the list because its request is in flight again. */
  lemma PinKeeps(nodes: Nodes, rest: seq<string>, clock: int, id: string, d: Decision, seen: int)
    requires Distinct(rest) && Ascending(nodes, rest)
    requires forall x :: x in rest <==> x in nodes && !nodes[x].pinned && x != id
    requires forall j :: 0 <= j < |rest| ==> Seen(nodes, rest[j]) <= clock
    ensures Consistent(nodes[id := Node(d, seen, true)], rest, clock)
  {
    var next := nodes[id := Node(d, seen, true)];
    forall j | 0 <= j < |rest| ensures Seen(next, rest[j]) == Seen(nodes, rest[j]) { assert rest[j] in rest; }
  }

  // ---- eviction from the front ----

  /** Everything but the first k of the list. */
  function Dropped(nodes: Nodes, order: seq<string>, k: nat): Nodes
    requires k <= |order|
  {
    map id | id in nodes && id !in order[..k] :: nodes[id]
  }

  lemma DroppedKeeps(nodes: Nodes, order: seq<string>, clock: int, k: nat)
    requires Consistent(nodes, order, clock) && k <= |order|
    ensures Consistent(Dropped(nodes, order, k), order[k..], clock)
    ensures PinnedIds(Dropped(nodes, order, k)) == PinnedIds(nodes)
  {
    var next, rest := Dropped(nodes, order, k), order[k..];
    forall j | 0 <= j < |rest| ensures rest[j] in next && Seen(next, rest[j]) == Seen(nodes, order[k + j]) {
      assert rest[j] == order[k + j] && order[k + j] in order;
    }
    forall id ensures id in rest <==> id in next && !next[id].pinned {
      if id in next && !next[id].pinned {
        var j :| 0 <= j < |order| && order[j] == id;
        assert j >= k ==> rest[j - k] == id;
      }
    }
  }

  /** Dropping one more from the front. */
  lemma DropOne(nodes: Nodes, order: seq<string>, k: nat)
    requires Distinct(order) && k < |order|
    ensures Dropped(nodes, order, k) - {order[k]} == Dropped(nodes, order, k + 1)
    ensures order[k..][1..] == order[k + 1..] && order[k..][0] == order[k]
  {
    assert order[..k + 1] == order[..k] + [order[k]];
  }

  /** Exactly the first `idle` of the list have expired. */
  ghost predicate IdlePrefix(nodes: Nodes, order: seq<string>, now: int, limits: Limits, idle: nat) {
    && idle <= |order|
    && forall i :: 0 <= i < |order| ==> (i < idle <==> limits.ttl > 0 && Seen(nodes, order[i]) < now - limits.ttl)
  }

  /** How far the two eviction loops go: past the expired, and further until the capacity is met. */
  ghost predicate RightCut(nodes: Nodes, order: seq<string>, now: int, limits: Limits, idle: nat, k: nat) {
    && IdlePrefix(nodes, order, now, limits, idle) && idle <= k <= |order|
    && k == if 0 < limits.capacity < |order| - idle then |order| - limits.capacity else idle
  }

  /** The ids in a tail of the list are the live ones, or the kept ones. */
  lemma TailIds(nodes: Nodes, order: seq<string>, clock: int, k: nat)
    requires Consistent(nodes, order, clock) && k <= |order|
    ensures Tails(Abstract(Dropped(nodes, order, k))) == set id | id in order[k..]
    ensures |Tails(Abstract(Dropped(nodes, order, k)))| == |order| - k
  {
    DroppedKeeps(nodes, order, clock, k);
    DistinctCount(order[k..]);
    assert Tails(Abstract(Dropped(nodes, order, k))) == set id | id in order[k..];
  }

  lemma LiveIds(nodes: Nodes, order: seq<string>, clock: int, now: int, limits: Limits, idle: nat, k: nat)
    requires Consistent(nodes, order, clock) && RightCut(nodes, order, now, limits, idle, k)
    ensures Live(Abstract(nodes), now, limits) == set id | id in order[idle..]
    ensures |Live(Abstract(nodes), now, limits)| == |order| - idle
  {
    forall id ensures id in Live(Abstract(nodes), now, limits) <==> id in order[idle..] {
      if id in Live(Abstract(nodes), now, limits) {
        var i :| 0 <= i < |order| && order[i] == id;
        assert i >= idle;
        assert order[idle..][i - idle] == id;
      }
      if id in order[idle..] {
        var j :| 0 <= j < |order[idle..]| && order[idle..][j] == id;
        assert order[idle + j] == id && id in order;
      }
    }
    DistinctCount(order[idle..]);
    assert Live(Abstract(nodes), now, limits) == set id | id in order[idle..];
  }

  /** Front-only eviction meets the promise, because the list is sorted. */
  lemma FrontEvictionIsRight(nodes: Nodes, order: seq<string>, clock: int, now: int, limits: Limits, idle: nat, k: nat)
    requires Consistent(nodes, order, clock) && RightCut(nodes, order, now, limits, idle, k)
    ensures Evicts(Abstract(nodes), Abstract(Dropped(nodes, order, k)), now, limits)
  {
    var v, w := Abstract(nodes), Abstract(Dropped(nodes, order, k));
    TailIds(nodes, order, clock, k);
    LiveIds(nodes, order, clock, now, limits, idle, k);
    forall id | id in order[k..] ensures id in order[idle..] {
      var j :| 0 <= j < |order[k..]| && order[k..][j] == id;
      assert order[idle..][j + k - idle] == id;
    }
    forall id | id in v && v[id].Pinned? ensures id in w {
      assert id !in order;
    }
    forall gone, kept | gone in Live(v, now, limits) - Tails(w) && kept in Tails(w)
      ensures v[gone].seen <= v[kept].seen
    {
      MoreRecent(nodes, order, k, gone, kept);
    }
  }

  lemma MoreRecent(nodes: Nodes, order: seq<string>, k: nat, gone: string, kept: string)
    requires Lists(nodes, order) && Ascending(nodes, order) && k <= |order|
    requires gone in order && gone !in order[k..] && kept in order[k..]
    ensures Seen(nodes, gone) <= Seen(nodes, kept)
  {
    var i :| 0 <= i < |order| && order[i] == gone;
    var j :| 0 <= j < |order[k..]| && order[k..][j] == kept;
    forall n | k <= n < |order| ensures order[n] in order[k..] { assert order[k..][n - k] == order[n]; }
    assert order[k + j] == kept;
  }

  /** Where the idle loop stops, nothing behind is expired either. */
  lemma FirstStays(nodes: Nodes, order: seq<string>, clock: int, idle: nat, cutoff: int)
    requires Consistent(nodes, order, clock) && idle <= |order|
    requires forall i :: 0 <= i < idle ==> Seen(nodes, order[i]) < cutoff
    requires idle < |order| ==> Seen(nodes, order[idle]) >= cutoff
    ensures forall i :: 0 <= i < |order| ==> (i < idle <==> Seen(nodes, order[i]) < cutoff)
  {
  }

  lemma TouchContents(nodes: Nodes, id: string, d: Decision, now: int)
    ensures Abstract(nodes[id := Node(d, now, false)]) == Abstract(nodes)[id := Tail(d, now)]
    ensures PinnedIds(nodes[id := Node(d, now, false)]) == PinnedIds(nodes) - {id}
    ensures |PinnedIds(nodes) - {id}| == |PinnedIds(nodes)| - if id in nodes && nodes[id].pinned then 1 else 0
  {
    if id !in PinnedIds(nodes) { assert PinnedIds(nodes) - {id} == PinnedIds(nodes); }
  }

  lemma PinContents(nodes: Nodes, id: string, d: Decision, seen: int)
    ensures Abstract(nodes[id := Node(d, seen, true)]) == Abstract(nodes)[id := Pinned(d)]
    ensures PinnedIds(nodes[id := Node(d, seen, true)]) == PinnedIds(nodes) + {id}
    ensures |PinnedIds(nodes) + {id}| == |PinnedIds(nodes)| + if id in nodes && nodes[id].pinned then 0 else 1
  {
    if id in PinnedIds(nodes) { assert PinnedIds(nodes) + {id} == PinnedIds(nodes); }
  }

  // ---- the store ----

  class Store {
    var nodes: Nodes
    var order: seq<string>
    var pinnedCount: int
    const limits: Limits
    /** The latest reading of the clock. */
    ghost var clock: int

    ghost predicate Valid() reads this {
      Consistent(nodes, order, clock) && pinnedCount == |PinnedIds(nodes)|
    }

    ghost function Contents(): View reads this { Abstract(nodes) }

    constructor (capacity: int, ttl: int, start: int)
      ensures Valid() && Contents() == map[] && limits == Limits(capacity, ttl) && clock == start
    {
      nodes, order, pinnedCount := map[], [], 0;
      limits, clock := Limits(capacity, ttl), start;
    }

    /** Take an id out of the recency list. */
    method Unlink(id: string)
      requires Valid() && id in order
      modifies this`order
      ensures Distinct(order) && Ascending(nodes, order)
      ensures forall x :: x in order <==> x in nodes && !nodes[x].pinned && x != id
      ensures forall j :: 0 <= j < |order| ==> Seen(nodes, order[j]) <= clock
    {
      var i :| 0 <= i < |order| && order[i] == id;
      WithoutKeeps(nodes, order, clock, i);
      order := order[..i] + order[i + 1..];
    }

    /** Activity: the decision becomes, or stays, unpinned and goes to the back of the list. */
    method Touch(id: string, d: Decision, now: int)
      requires Valid() && clock <= now
      modifies this
      ensures Valid() && clock == now
      ensures Contents() == old(Contents())[id := Tail(d, now)]
    {
      if id in order {
        Unlink(id);
      }
      TouchKeeps(nodes, order, clock, id, d, now);
      TouchContents(nodes, id, d, now);
      if id in nodes && nodes[id].pinned {
        pinnedCount := pinnedCount - 1;
      }
      nodes := nodes[id := Node(d, now, false)];
      order := order + [id];
      clock := now;
    }

    method Pin(d: Decision, now: int)
      requires Valid() && clock <= now
      modifies this
      ensures Valid() && clock == now
      ensures Contents() == old(Contents())[d.id := Pinned(d)]
    {
      if d.id in order {
        Unlink(d.id);
      }
      var seen := if d.id in nodes then nodes[d.id].seen else 0;
      PinKeeps(nodes, order, clock, d.id, d, seen);
      PinContents(nodes, d.id, d, seen);
      if d.id !in nodes || !nodes[d.id].pinned {
        pinnedCount := pinnedCount + 1;
      }
      nodes := nodes[d.id := Node(d, seen, true)];
      clock := now;
    }

    /** Drop the front of the list while it has expired. */
    method EvictIdle(now: int) returns (ghost idle: nat)
      requires Valid()
      modifies this`nodes, this`order
      ensures Valid() && IdlePrefix(old(nodes), old(order), now, limits, idle)
      ensures order == old(order)[idle..] && nodes == Dropped(old(nodes), old(order), idle)
    {
      idle := 0;
      if limits.ttl > 0 {
        while order != [] && nodes[order[0]].seen < now - limits.ttl
          invariant idle <= |old(order)| && Valid()
          invariant order == old(order)[idle..] && nodes == Dropped(old(nodes), old(order), idle)
          invariant forall i :: 0 <= i < idle ==> Seen(old(nodes), old(order)[i]) < now - limits.ttl
          decreases |order|
        {
          idle := DropFront(old(nodes), old(order), idle);
        }
        FirstStays(old(nodes), old(order), clock, idle, now - limits.ttl);
      }
    }

    /** Drop the front of the list until the capacity is met. */
    method EvictSurplus(ghost nodes0: Nodes, ghost order0: seq<string>, ghost idle: nat) returns (ghost k: nat)
      requires Valid() && Consistent(nodes0, order0, clock) && idle <= |order0|
      requires order == order0[idle..] && nodes == Dropped(nodes0, order0, idle)
      modifies this`nodes, this`order
      ensures Valid() && idle <= k <= |order0|
      ensures order == order0[k..] && nodes == Dropped(nodes0, order0, k)
      ensures k == if 0 < limits.capacity < |order0| - idle then |order0| - limits.capacity else idle
    {
      k := idle;
      if limits.capacity > 0 {
        while |order| > limits.capacity
          invariant idle <= k <= |order0| && Valid()
          invariant order == order0[k..] && nodes == Dropped(nodes0, order0, k)
          invariant k > idle ==> |order0| - k >= limits.capacity
          decreases |order|
        {
          k := DropFront(nodes0, order0, k);
        }
      }
    }

    method Evict(now: int)
      requires Valid() && clock <= now
      modifies this
      ensures Valid() && clock == now
      ensures Evicts(old(Contents()), Contents(), now, limits)
    {
      ghost var idle := EvictIdle(now);
      ghost var k := EvictSurplus(old(nodes), old(order), idle);
      FrontEvictionIsRight(old(nodes), old(order), clock, now, limits, idle, k);
      clock := now;
    }

    method DropFront(ghost nodes0: Nodes, ghost order0: seq<string>, ghost k: nat) returns (ghost next: nat)
      requires Valid() && order != [] && k < |order0|
      requires Consistent(nodes0, order0, clock) && order == order0[k..] && nodes == Dropped(nodes0, order0, k)
      modifies this`nodes, this`order
      ensures next == k + 1 && order == order0[next..] && nodes == Dropped(nodes0, order0, next)
      ensures Valid()
    {
      next := k + 1;
      DropOne(nodes0, order0, k);
      DroppedKeeps(nodes0, order0, clock, k);
      DroppedKeeps(nodes0, order0, clock, k + 1);
      nodes := nodes - {order[0]};
      order := order[1..];
    }

    method UpsertDecision(d: Decision, now: int, later: int)
      requires Valid() && clock <= now <= later
      modifies this
      ensures Valid() && clock == later
      ensures Does(old(Contents()), Upsert(d), now, later, Contents(), limits)
    {
      Touch(d.id, d, now);
      Evict(later);
    }

    method MarkDecisionInFlight(d: Decision, now: int, later: int)
      requires Valid() && clock <= now <= later
      modifies this
      ensures Valid() && clock == later
      ensures Does(old(Contents()), MarkInFlight(d), now, later, Contents(), limits)
    {
      Pin(d, now);
      Evict(later);
    }

    /** An unknown id still evicts. */
    method MarkDecisionComplete(id: string, now: int)
      requires Valid() && clock <= now
      modifies this
      ensures Valid() && clock == now
      ensures Does(old(Contents()), MarkComplete(id), now, now, Contents(), limits)
    {
      if id in nodes {
        Touch(id, nodes[id].decision, now);
      }
      Evict(now);
    }

    method GetDecision(id: string, now: int) returns (found: bool, d: Decision)
      requires Valid() && clock <= now
      modifies this
      ensures Valid()
      ensures found <==> id in old(Contents())
      ensures found ==> d == old(Contents())[id].decision
      ensures Does(old(Contents()), Get(id), now, now, Contents(), limits)
    {
      if id !in nodes {
        return false, Decision("", "");
      }
      found, d := true, nodes[id].decision;
      if !nodes[id].pinned {
        Touch(id, d, now);
      }
    }

    method InFlightCount() returns (n: int)
      requires Valid()
      ensures n == |set id | id in Contents() && Contents()[id].Pinned?|
    {
      n := pinnedCount;
      assert PinnedIds(nodes) == set id | id in Contents() && Contents()[id].Pinned?;
    }
  }
}
