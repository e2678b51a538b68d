/** When a verified update may run (agentupdate/gate.go), and how a fleet plan's window is folded over the
    device's own (agentupdate/plan.go). Instants and durations are whole seconds. */
module Gate {
  import opened Text

  datatype Window = Window(
    start: string, end: string, idleMinutes: int, unattended: bool, acPower: bool, deadlineDays: int)

  /** What the device observes. `minuteOfDay` is its local wall clock; an absent signal could not be read. */
  datatype Conditions = Conditions(
    now: int, minuteOfDay: nat, idleFor: Option<int>, inUse: Option<bool>, onAC: Option<bool>,
    eligibleSince: Option<int>, frozen: bool, planHold: string)

  datatype WaitReason = PlanCannotAuthorise | Frozen | NotYetInWave | OutOfWindow | IdleUnknown | Busy
                      | InUseUnknown | InUse | PowerUnknown | OnBattery

  datatype Decision = Proceed(forced: bool) | Wait(reason: WaitReason)

  const DAY: int := 86400
  const MINUTES_PER_DAY: int := 1440

  /** Hours and minutes on either side of the first colon. */
  function ReadClock(read: string -> Option<int>, v: string): (r: Option<nat>)
    ensures r.Some? ==> r.value < MINUTES_PER_DAY
  {
    var i := IndexOf(v, ':');
    if i < 0 then None
    else
      match (read(v[..i]), read(v[i + 1..]))
      case (Some(h), Some(m)) => if 0 <= h <= 23 && 0 <= m <= 59 then Some((h * 60 + m) as nat) else None
      case _ => None
  }

  function ParseHHMM(text: string): (r: Option<nat>)
    ensures r.Some? ==> r.value < MINUTES_PER_DAY
  {
    ReadClock(Atoi, TrimSpace(text))
  }

  lemma DigitsAreNotTrimmed(a: string, b: string)
    requires AllDigits(a) && AllDigits(b)
    ensures TrimSpace(a + ":" + b) == a + ":" + b
  {
    var text := a + ":" + b;
    assert text[0] == a[0] && text[|text| - 1] == b[|b| - 1];
  }

  lemma AtoiOfItoa(n: nat)
    requires n <= INT_MAX
    ensures Atoi(Itoa(n)) == Some(n)
  {
    ValueOfItoa(n);
    assert IsDigit(Itoa(n)[0]);
  }

  lemma ReadsParts(read: string -> Option<int>, h: string, m: string, hour: int, minute: int)
    requires ':' !in h && read(h) == Some(hour) && read(m) == Some(minute)
    ensures ReadClock(read, h + ":" + m) == if 0 <= hour < 24 && 0 <= minute < 60 then Some(hour * 60 + minute) else None
  {
    CutAtColon(h, m);
  }

  lemma CutAtColon(h: string, m: string)
    requires ':' !in h
    ensures var text := h + ":" + m; IndexOf(text, ':') == |h| && text[..|h|] == h && text[|h| + 1..] == m
  {
    var text := h + ":" + m;
    assert text[|h|] == ':' && text[..|h|] == h;
    FirstIndexIs(text, ':', |h|);
  }

  /** A clock time written out reads back as its minute of the day, and nothing past 23:59 reads at all. */
  lemma ClockTimeRoundTrip(hour: nat, minute: nat)
    requires hour <= INT_MAX && minute <= INT_MAX
    ensures ParseHHMM(Itoa(hour) + ":" + Itoa(minute)) ==
              if hour < 24 && minute < 60 then Some(hour * 60 + minute) else None
  {
    DigitsAreNotTrimmed(Itoa(hour), Itoa(minute));
    AtoiOfItoa(hour);
    AtoiOfItoa(minute);
    ReadsParts(Atoi, Itoa(hour), Itoa(minute), hour, minute);
  }

  /** None when the window cannot be read. */
  function InLocalWindow(start: string, end: string, minuteOfDay: nat): Option<bool> {
    match (ParseHHMM(start), ParseHHMM(end))
    case (Some(s), Some(e)) =>
      Some(if s == e then true
           else if s < e then s <= minuteOfDay < e
           else s <= minuteOfDay || minuteOfDay < e)
    case _ => None
  }

  /** The first condition that holds the update back, in the order the code asks. */
  function WindowHold(w: Window, c: Conditions): Option<WaitReason> {
    if InLocalWindow(w.start, w.end, c.minuteOfDay) != Some(true) then Some(OutOfWindow)
    else if w.idleMinutes > 0 && c.idleFor.None? then Some(IdleUnknown)
    else if w.idleMinutes > 0 && c.idleFor.value < w.idleMinutes * 60 then Some(Busy)
    else if w.unattended && c.inUse.None? then Some(InUseUnknown)
    else if w.unattended && c.inUse.value then Some(InUse)
    else if w.acPower && c.onAC.None? then Some(PowerUnknown)
    else if w.acPower && !c.onAC.value then Some(OnBattery)
    else None
  }

  predicate DeadlinePassed(w: Window, c: Conditions) {
    w.deadlineDays > 0 && c.eligibleSince.Some? && c.now - c.eligibleSince.value >= w.deadlineDays * DAY
  }

  function EvaluateGate(w: Window, c: Conditions): Decision {
    if !Blank(c.planHold) then Wait(PlanCannotAuthorise)
    else if c.frozen then Wait(Frozen)
    else if c.eligibleSince.Some? && c.now < c.eligibleSince.value then Wait(NotYetInWave)
    else
      match WindowHold(w, c)
      case None => Proceed(false)
      case Some(reason) => if DeadlinePassed(w, c) then Proceed(true) else Wait(reason)
  }

  // ---- what the decision means ----

  /** Nothing the fleet decided stops this device: no plan hold, no freeze, its wave open. */
  predicate Released(c: Conditions) {
    && Blank(c.planHold) && !c.frozen
    && (c.eligibleSince.Some? ==> c.eligibleSince.value <= c.now)
  }

  /** The clock face read as a circle: minutes since the start are fewer than the window is long. */
  predicate InsideCircle(start: nat, end: nat, minuteOfDay: nat) {
    start == end || (minuteOfDay - start) % MINUTES_PER_DAY < (end - start) % MINUTES_PER_DAY
  }

  /** The window is readable and the local clock is inside it. */
  predicate InsideWindow(w: Window, c: Conditions) {
    match (ParseHHMM(w.start), ParseHHMM(w.end))
    case (Some(s), Some(e)) => InsideCircle(s, e, c.minuteOfDay)
    case _ => false
  }

  predicate IdleRule(w: Window, c: Conditions) {
    w.idleMinutes > 0 ==> c.idleFor.Some? && c.idleFor.value >= 60 * w.idleMinutes
  }

  predicate AttendanceRule(w: Window, c: Conditions) {
    w.unattended ==> c.inUse == Some(false)
  }

  predicate PowerRule(w: Window, c: Conditions) {
    w.acPower ==> c.onAC == Some(true)
  }

  lemma DayRemainder(d: int)
    requires -MINUTES_PER_DAY < d < MINUTES_PER_DAY
    ensures d % MINUTES_PER_DAY == if d >= 0 then d else d + MINUTES_PER_DAY
  {
  }

  /** The two-branch test, wrapping past midnight or not, is the circular one. */
  lemma WrapIsCircular(s: nat, e: nat, m: nat)
    requires s < MINUTES_PER_DAY && e < MINUTES_PER_DAY && m < MINUTES_PER_DAY
    ensures InsideCircle(s, e, m) <==> if s <= e then s == e || s <= m < e else s <= m || m < e
  {
    DayRemainder(m - s);
    DayRemainder(e - s);
  }

  lemma InsideWindowIff(w: Window, c: Conditions)
    requires c.minuteOfDay < MINUTES_PER_DAY
    ensures InLocalWindow(w.start, w.end, c.minuteOfDay) == Some(true) <==> InsideWindow(w, c)
  {
    match (ParseHHMM(w.start), ParseHHMM(w.end))
    case (Some(s), Some(e)) => WrapIsCircular(s, e, c.minuteOfDay);
    case _ =>
  }

  /** The gate opens exactly when the fleet releases the device and either every local rule is met or the
      deadline has run out; so no deadline ever beats a hold, a freeze or an unopened wave. */
  lemma GateOpensIff(w: Window, c: Conditions)
    requires c.minuteOfDay < MINUTES_PER_DAY
    ensures EvaluateGate(w, c) == Proceed(false) <==>
            Released(c) && InsideWindow(w, c) && IdleRule(w, c) && AttendanceRule(w, c) && PowerRule(w, c)
    ensures EvaluateGate(w, c).Proceed? <==>
            Released(c)
            && ((InsideWindow(w, c) && IdleRule(w, c) && AttendanceRule(w, c) && PowerRule(w, c))
                || DeadlinePassed(w, c))
  {
    InsideWindowIff(w, c);
  }

  // ---- folding a fleet plan over the local window ----

  function RaiseWindow(local: Window, plan: Window): Window {
    Window(
      if Blank(plan.start) then local.start else plan.start,
      if Blank(plan.end) then local.end else plan.end,
      if plan.idleMinutes > local.idleMinutes then plan.idleMinutes else local.idleMinutes,
      local.unattended || plan.unattended,
      local.acPower || plan.acPower,
      if plan.deadlineDays > 0 then plan.deadlineDays else local.deadlineDays)
  }

  function RaiseAll(local: Window, plans: seq<Window>): Window {
    if plans == [] then local else RaiseWindow(RaiseAll(local, plans[..|plans| - 1]), plans[|plans| - 1])
  }

  /** However many plans are folded in, an unforced install still meets the device's own idle, attendance and
      power rules, and every folded plan's. */
  lemma RaisedWindowKeepsProtections(local: Window, plans: seq<Window>, c: Conditions)
    requires c.minuteOfDay < MINUTES_PER_DAY
    requires EvaluateGate(RaiseAll(local, plans), c) == Proceed(false)
    ensures IdleRule(local, c) && AttendanceRule(local, c) && PowerRule(local, c)
    ensures forall p :: p in plans ==> IdleRule(p, c) && AttendanceRule(p, c) && PowerRule(p, c)
  {
    GateOpensIff(RaiseAll(local, plans), c);
    RulesInherited(local, plans, c);
  }

  lemma {:induction false} RulesInherited(local: Window, plans: seq<Window>, c: Conditions)
    requires var w := RaiseAll(local, plans); IdleRule(w, c) && AttendanceRule(w, c) && PowerRule(w, c)
    ensures IdleRule(local, c) && AttendanceRule(local, c) && PowerRule(local, c)
    ensures forall p :: p in plans ==> IdleRule(p, c) && AttendanceRule(p, c) && PowerRule(p, c)
  {
    if plans != [] {
      RulesInherited(local, plans[..|plans| - 1], c);
      assert plans == plans[..|plans| - 1] + [plans[|plans| - 1]];
    }
  }
}
