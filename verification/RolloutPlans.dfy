/** What a couriered rollout plan may do to a device (agentupdate/rollout.go, the decision once a plan has been read).
    A plan can always stop a device; it can start one only when it is current, unreplayed and about the release on
    offer. Times are whole seconds. */
module RolloutPlans {
  import opened Text
  import Versions
  import Journals

  datatype Stamp = Blank | Unreadable | At(time: int)

  datatype Plan = Plan(
    frozen: bool, eligibleSince: Stamp, generated: Stamp, device: string, tenant: string, target: string)

  /** What the device knows by itself. `notBefore` is the newest plan it has accepted. */
  datatype Expectation = Expectation(version: string, notBefore: Option<int>, maxAge: int, device: string, tenant: string)

  /** `withheld`: the plan may not start this device. */
  datatype Rollout = Rollout(
    frozen: bool, withheld: bool, eligibleSince: Option<int>, generated: Option<int>, unverifiable: bool)

  const SKEW: int := 300

  const FROZEN: Rollout := Rollout(true, false, None, None, true)

  function TimeOf(s: Stamp): Option<int> { if s.At? then Some(s.time) else None }

  /** Known to be for another device or another tenant. */
  predicate Elsewhere(p: Plan, e: Expectation) {
    || (p.device != "" && e.device != "" && Lower(p.device) != Lower(e.device))
    || (p.tenant != "" && e.tenant != "" && p.tenant != e.tenant)
  }

  predicate FromFuture(p: Plan, now: int) { p.generated.At? && p.generated.time > now + SKEW }

  predicate Replayed(p: Plan, e: Expectation) {
    !Elsewhere(p, e) && e.notBefore.Some? && p.generated.At? && p.generated.time < e.notBefore.value
  }

  predicate Withholds(p: Plan, now: int, e: Expectation) {
    || Elsewhere(p, e) || TrimSpace(e.version) == "" || TrimSpace(p.target) == "" || !Versions.SameVersion(p.target, e.version)
    || !p.generated.At? || (e.maxAge > 0 && now - p.generated.time > e.maxAge)
  }

  function Decide(p: Plan, now: int, e: Expectation): Rollout {
    if p.eligibleSince.Unreadable? || p.generated.Unreadable? then FROZEN
    else if FromFuture(p, now) then Rollout(p.frozen, true, None, None, false)
    else if Replayed(p, e) then FROZEN
    else
      Rollout(p.frozen, Withholds(p, now, e), if Withholds(p, now, e) then None else TimeOf(p.eligibleSince),
              if Elsewhere(p, e) then None else TimeOf(p.generated), false)
  }

  // ---- one plan ----

  /** A plan opens a device exactly when it is readable, does not halt, is for this device as far as can be told, is
      not from the future, not older than one already accepted, not stale, and about the release on offer. */
  lemma OpensIff(p: Plan, now: int, e: Expectation)
    ensures !Decide(p, now, e).frozen && !Decide(p, now, e).withheld <==>
      && !p.frozen && !p.eligibleSince.Unreadable? && p.generated.At? && !Elsewhere(p, e)
      && p.generated.time <= now + SKEW
      && (e.notBefore.Some? ==> p.generated.time >= e.notBefore.value)
      && (e.maxAge > 0 ==> p.generated.time >= now - e.maxAge)
      && Versions.SameVersion(p.target, e.version)
  {
  }

  /** A halt is obeyed whatever else is wrong with the plan that carries it. */
  lemma HaltIsAlwaysObeyed(p: Plan, now: int, e: Expectation)
    requires p.frozen
    ensures Decide(p, now, e).frozen
  {
  }

  // ---- every sequence of plans ----

  datatype Arrival = Arrival(plan: Plan, now: int, version: string, maxAge: int, device: string, tenant: string)

  function Expected(a: Arrival, floor: Option<int>): Expectation {
    Expectation(a.version, floor, a.maxAge, a.device, a.tenant)
  }

  /** The callers raise the stored floor to what the decision reports as accepted. */
  function Receive(r: Journals.Record, a: Arrival): Journals.Record {
    Journals.AcceptPlanFloor(r, Decide(a.plan, a.now, Expected(a, r.planFloor)).generated)
  }

  function ReceiveAll(r: Journals.Record, arrivals: seq<Arrival>): Journals.Record {
    if arrivals == [] then r else Receive(ReceiveAll(r, arrivals[..|arrivals| - 1]), arrivals[|arrivals| - 1])
  }

  predicate FloorLeq(a: Option<int>, b: Option<int>) { a.Some? ==> b.Some? && a.value <= b.value }

  /** One plan: the floor does not fall, does not move for somebody else's plan, and does not pass the clock. */
  lemma ReceiveFloor(r: Journals.Record, a: Arrival)
    ensures FloorLeq(r.planFloor, Receive(r, a).planFloor)
    ensures Elsewhere(a.plan, Expected(a, r.planFloor)) ==> Receive(r, a).planFloor == r.planFloor
    ensures Receive(r, a).planFloor != r.planFloor ==> Receive(r, a).planFloor.Some? && Receive(r, a).planFloor.value <= a.now + SKEW
    ensures Receive(r, a) == r.(planFloor := Receive(r, a).planFloor)
  {
  }

  lemma {:induction false} FloorNeverFalls(r: Journals.Record, arrivals: seq<Arrival>, k: nat)
    requires k <= |arrivals|
    ensures FloorLeq(ReceiveAll(r, arrivals[..k]).planFloor, ReceiveAll(r, arrivals).planFloor)
  {
    if k == |arrivals| {
      assert arrivals[..k] == arrivals;
    } else {
      var front := arrivals[..|arrivals| - 1];
      assert front[..k] == arrivals[..k];
      FloorNeverFalls(r, front, k);
      ReceiveFloor(ReceiveAll(r, front), arrivals[|arrivals| - 1]);
    }
  }

  /** However plans are dated, the floor never passes the latest clock reading plus the tolerance, so a wrongly dated
      plan cannot lock the device out of every later one. */
  lemma {:induction false} FloorStaysNearClock(r: Journals.Record, arrivals: seq<Arrival>, latest: int)
    requires r.planFloor.Some? ==> r.planFloor.value <= latest + SKEW
    requires forall i :: 0 <= i < |arrivals| ==> arrivals[i].now <= latest
    ensures var floor := ReceiveAll(r, arrivals).planFloor; floor.Some? ==> floor.value <= latest + SKEW
  {
    if arrivals != [] {
      FloorStaysNearClock(r, arrivals[..|arrivals| - 1], latest);
      ReceiveFloor(ReceiveAll(r, arrivals[..|arrivals| - 1]), arrivals[|arrivals| - 1]);
    }
  }

  /** Plans known to be for others leave no trace, however many arrive. */
  lemma {:induction false} OthersLeaveNoTrace(r: Journals.Record, arrivals: seq<Arrival>)
    requires forall i :: 0 <= i < |arrivals| ==> Elsewhere(arrivals[i].plan, Expected(arrivals[i], None))
    ensures ReceiveAll(r, arrivals) == r
  {
    if arrivals != [] {
      OthersLeaveNoTrace(r, arrivals[..|arrivals| - 1]);
    }
  }

  /** What the decision reports as accepted is the plan's own date, and the floor then reaches it. */
  lemma AcceptedReachesFloor(r: Journals.Record, a: Arrival)
    requires Decide(a.plan, a.now, Expected(a, r.planFloor)).generated.Some?
    ensures a.plan.generated.At? && FloorLeq(Some(a.plan.generated.time), Receive(r, a).planFloor)
  {
  }

  lemma OpensOnlyAboveFloor(a: Arrival, floor: Option<int>, date: int)
    requires FloorLeq(Some(date), floor)
    ensures var d := Decide(a.plan, a.now, Expected(a, floor));
            !d.frozen && !d.withheld ==> a.plan.generated.At? && a.plan.generated.time >= date
  {
    OpensIff(a.plan, a.now, Expected(a, floor));
  }

  /** Once a plan has been accepted, a later plan opens the device only if it is at least as new: a halt is not lifted
      by replaying what came before it. */
  lemma NoReplayOpens(r: Journals.Record, arrivals: seq<Arrival>, k: nat, a: Arrival)
    requires k < |arrivals|
    requires Decide(arrivals[k].plan, arrivals[k].now, Expected(arrivals[k], ReceiveAll(r, arrivals[..k]).planFloor)).generated.Some?
    ensures arrivals[k].plan.generated.At?
    ensures var later := Decide(a.plan, a.now, Expected(a, ReceiveAll(r, arrivals).planFloor));
            !later.frozen && !later.withheld ==> a.plan.generated.At? && a.plan.generated.time >= arrivals[k].plan.generated.time
  {
    AcceptedReachesFloor(ReceiveAll(r, arrivals[..k]), arrivals[k]);
    assert arrivals[..k + 1][..k] == arrivals[..k];
    FloorNeverFalls(r, arrivals, k + 1);
    OpensOnlyAboveFloor(a, ReceiveAll(r, arrivals).planFloor, arrivals[k].plan.generated.time);
  }
}
