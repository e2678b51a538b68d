/** The control plane of the authentication rollout (authrollout/state.go): an operator-declared census, the
    capability reports observed against it, and a one-way completion latch. Times are whole seconds; normalised
    feature lists are sorted and duplicate-free, so they are kept as sets. */
module AuthRollout {
  import opened Text

  datatype Result<+T> = Ok(value: T) | Err(error: Error)

  datatype Error = Conflict | NotReady | Invalid | Unchanged

  datatype Member = Member(id: string, role: string, pin: string, version: string, retired: bool, reason: string)

  /** `providers` distinguishes an absent baseline from an empty one, as the wire form does. */
  datatype Manifest = Manifest(
    deployment: string, generation: nat, members: seq<Member>, providers: Option<map<string, string>>)

  datatype Report = Report(generation: nat, node: string, version: string, features: set<string>)

  datatype Observation = Observation(report: Report, receivedAt: int)

  datatype State = State(
    manifest: Manifest, revision: nat, complete: bool, enabled: set<string>, observed: map<string, Observation>)

  const EVIDENCE: string := "grant-evidence-v1"
  const CROSS_SCOPE: string := "cross-scope-identity-evidence-v1"
  const FRESH_FOR: int := 120
  /** The time value that means "no time". */
  const NO_TIME: int := 0

  // ---- validation ----

  predicate ValidHash(s: string) {
    |s| == 64 && forall i :: 0 <= i < |s| ==> '0' <= s[i] <= '9' || 'a' <= s[i] <= 'f'
  }

  predicate ValidMember(n: Member) {
    && n.id != "" && n.id == TrimSpace(n.id) && n.role in {"cp", "edge"} && n.version != "" && ValidHash(n.pin)
    && n.retired == !Blank(n.reason)
  }

  predicate HasActive(m: Manifest, role: string) {
    exists i :: 0 <= i < |m.members| && !m.members[i].retired && m.members[i].role == role
  }

  predicate ValidManifest(m: Manifest) {
    && !Blank(m.deployment) && m.generation > 0 && 0 < |m.members| <= 4096
    && (forall i :: 0 <= i < |m.members| ==> ValidMember(m.members[i]))
    && (forall i, j :: 0 <= i < j < |m.members| ==>
          m.members[i].id != m.members[j].id && m.members[i].pin != m.members[j].pin)
    && HasActive(m, "cp") && HasActive(m, "edge")
    && (m.providers.Some? ==> forall k :: k in m.providers.value ==> ValidHash(k) && ValidHash(m.providers.value[k]))
  }

  predicate ValidFeature(f: string) { f != "" && |f| <= 128 && f == TrimSpace(f) }

  predicate ValidFeatures(features: set<string>) {
    |features| <= 128 && forall f :: f in features ==> ValidFeature(f)
  }

  /** A feature list is refused for a duplicate, a malformed name or too many names. */
  function NormalizeFeatures(features: seq<string>): Option<set<string>> {
    var names := set f | f in features;
    if |features| <= 128 && |names| == |features| && ValidFeatures(names) then Some(names) else None
  }

  /** A member of this census, by id, that has not been retired. */
  predicate ActiveMember(m: Manifest, id: string) {
    exists i :: 0 <= i < |m.members| && m.members[i].id == id && !m.members[i].retired
  }

  predicate ValidState(s: State) {
    && s.revision > 0 && ValidManifest(s.manifest) && ValidFeatures(s.enabled)
    && (s.complete ==> EVIDENCE in s.enabled)
    && (!s.complete ==> s.enabled == {})
    && forall id :: id in s.observed ==>
         && ActiveMember(s.manifest, id)
         && s.observed[id].report.node == id && s.observed[id].report.generation == s.manifest.generation
         && s.observed[id].report.version != "" && s.observed[id].receivedAt != NO_TIME
         && ValidFeatures(s.observed[id].report.features)
  }

  /** One observation is present, of this generation, fresh, and advertises the features. */
  predicate FreshlyAdvertises(s: State, id: string, features: set<string>, now: int) {
    && id in s.observed && s.observed[id].report.generation == s.manifest.generation
    && s.observed[id].receivedAt <= now < s.observed[id].receivedAt + FRESH_FOR
    && features <= s.observed[id].report.features
  }

  predicate Ready(s: State, features: set<string>, now: int) {
    forall i :: 0 <= i < |s.manifest.members| && !s.manifest.members[i].retired ==>
      FreshlyAdvertises(s, s.manifest.members[i].id, features, now)
  }

  // ---- the three edits ----

  /** A member of the old census has a counterpart in the new one with the same identity, never unretired. */
  predicate Continues(member: Member, next: Manifest) {
    exists j :: 0 <= j < |next.members| && next.members[j].id == member.id && next.members[j].role == member.role
                && next.members[j].pin == member.pin && (member.retired ==> next.members[j].retired)
  }

  /** What storing and loading makes of an empty baseline. */
  function Stored(m: Manifest): Manifest {
    if m.providers == Some(map[]) then m.(providers := None) else m
  }

  function Generation(s: Option<State>): nat {
    if s.Some? then s.value.manifest.generation else 0
  }

  function Checked(s: State): Result<State> {
    if ValidState(s) then Ok(s) else Err(Invalid)
  }

  /** The store is None before the first configuration. */
  function Configure(s: Option<State>, previous: nat, m: Manifest): Result<State> {
    if !ValidManifest(m) then Err(Invalid)
    else if Generation(s) != previous || m.generation != previous + 1 then Err(Conflict)
    else
      match s
      case None => Checked(State(Stored(m), 1, false, {}, map[]))
      case Some(v) =>
        if v.manifest.deployment != m.deployment then Err(Conflict)
        else if !(forall i :: 0 <= i < |v.manifest.members| ==> Continues(v.manifest.members[i], m)) then Err(Invalid)
        else if v.manifest.providers != m.providers then Err(Invalid)
        else Checked(v.(manifest := Stored(m), revision := v.revision + 1, observed := map[]))
  }

  predicate IsReporter(m: Manifest, node: string, certificate: string) {
    exists i :: 0 <= i < |m.members| && m.members[i].id == node && !m.members[i].retired && m.members[i].pin == certificate
  }

  function Record(s: Option<State>, certificate: string, generation: nat, node: string, version: string,
                  features: seq<string>, now: int): Result<State>
  {
    match NormalizeFeatures(features)
    case None => Err(Invalid)
    case Some(names) =>
      if version == "" || now == NO_TIME then Err(Invalid)
      else
        match s
        case None => Err(Conflict)
        case Some(v) =>
          var report := Report(generation, node, version, names);
          if generation != v.manifest.generation then Err(Conflict)
          else if !IsReporter(v.manifest, node, certificate) then Err(Invalid)
          else if !(v.enabled <= names) then Err(Invalid)
          else if v.complete && names <= v.enabled && node in v.observed && v.observed[node].report == report then Err(Unchanged)
          else Checked(v.(observed := v.observed[node := Observation(report, now)], revision := v.revision + 1))
  }

  function Activate(s: Option<State>, generation: nat, features: seq<string>, now: int): Result<State> {
    match NormalizeFeatures(features)
    case None => Err(Invalid)
    case Some(names) =>
      if EVIDENCE !in names || CROSS_SCOPE in names then Err(Invalid)
      else
        match s
        case None => Err(Conflict)
        case Some(v) =>
          if generation != v.manifest.generation then Err(Conflict)
          else if !(v.enabled <= names) then Err(Invalid)
          else if v.complete && v.enabled == names then Err(Unchanged)
          else if !Ready(v, names, now) then Err(NotReady)
          else Checked(v.(complete := true, enabled := names, revision := v.revision + 1))
  }

  // ---- edits as data ----

  /** `OpEmptied` is an edit whose save failed after truncating the file: an empty file reads as no state. */

  datatype Op =
    | OpConfigure(previous: nat, manifest: Manifest)
    | OpRecord(certificate: string, generation: nat, node: string, version: string, features: seq<string>, now: int)
    | OpActivate(generation: nat, features: seq<string>, now: int)
    | OpEmptied

  function Edit(s: Option<State>, op: Op): Result<State> {
    match op
    case OpConfigure(previous, m) => Configure(s, previous, m)
    case OpRecord(certificate, generation, node, version, features, now) =>
      Record(s, certificate, generation, node, version, features, now)
    case OpActivate(generation, features, now) => Activate(s, generation, features, now)
    case OpEmptied => Err(Invalid)
  }

  /** A refused edit leaves the store as it is. */
  function Apply(s: Option<State>, op: Op): Option<State> {
    if op.OpEmptied? then None
    else
      match Edit(s, op)
      case Ok(v) => Some(v)
      case Err(_) => s
  }

  // ---- the store ----

  /** A file that should hold a value: none, an intact one, or what a write that failed half way left. */
  datatype Blob<+T> = Empty | Whole(value: T) | Torn

  /** Confirmed; or reported failed with the old contents, the new ones, none, or a part of the new ones in the file. */
  datatype SaveResult = Written | Kept | Replaced | Emptied | Tore

  function BlobAfter<T>(b: Blob<T>, v: T, save: SaveResult): Blob<T> {
    match save
    case Written => Whole(v)
    case Replaced => Whole(v)
    case Kept => b
    case Emptied => Empty
    case Tore => Torn
  }

  function AsBlob(s: Option<State>): Blob<State> { if s.Some? then Whole(s.value) else Empty }

  /** The authority's store. */
  class Store {
    var blob: Blob<State>
    var localRevision: nat

    constructor ()
      ensures blob == Empty && localRevision == 0
    {
      blob, localRevision := Empty, 0;
    }

    /** The transaction around an edit: nothing but a valid edit's result is ever written. */
    method Commit(candidate: Result<State>, save: SaveResult) returns (error: Option<Error>)
      modifies this
      ensures candidate.Err? ==> blob == old(blob) && localRevision == old(localRevision)
      ensures candidate.Err? ==> error == if candidate.error == Unchanged then None else Some(candidate.error)
      ensures candidate.Ok? ==> blob == BlobAfter(old(blob), candidate.value, save)
      ensures candidate.Ok? ==> (error == None <==> save == Written)
      ensures localRevision == old(localRevision) + if candidate.Ok? && save == Written then 1 else 0
    {
      match candidate {
        case Err(e) =>
          return if e == Unchanged then None else Some(e);
        case Ok(v) =>
          blob := BlobAfter(blob, v, save);
          if save != Written {
            return Some(Invalid);
          }
          localRevision := localRevision + 1;
          return None;
      }
    }

    /** Configure, Record or Activate, as one transaction on what the store holds; a torn file refuses every edit. */
    method Submit(op: Op, save: SaveResult) returns (error: Option<Error>)
      requires !op.OpEmptied?
      modifies this
      ensures old(blob) == Torn ==> blob == Torn && error.Some? && localRevision == old(localRevision)
      ensures forall s | old(blob) == AsBlob(s) ::
        && (Edit(s, op).Err? ==> blob == old(blob))
        && (Edit(s, op).Ok? && save in {Written, Replaced} ==> blob == AsBlob(Apply(s, op)))
        && (Edit(s, op).Ok? && save == Kept ==> blob == old(blob))
        && (Edit(s, op).Ok? && save == Emptied ==> blob == AsBlob(Apply(s, OpEmptied)))
        && (Edit(s, op).Ok? && save == Tore ==> blob == Torn)
        && (error == None ==> blob == AsBlob(Apply(s, op)))
        && (localRevision > old(localRevision) <==> Edit(s, op).Ok? && save == Written)
    {
      match blob {
        case Torn => error := Some(Invalid);
        case Empty => error := Commit(Edit(None, op), save);
        case Whole(v) => error := Commit(Edit(Some(v), op), save);
      }
    }
  }

  // ---- histories of the authority ----

  /** What the store holds after the edits that reached it. */
  function After(ops: seq<Op>): Option<State> {
    if ops == [] then None else Apply(After(ops[..|ops| - 1]), ops[|ops| - 1])
  }

  // ---- what every history keeps ----

  /** Every stored observation advertises every enabled feature. */
  predicate AllAdvertiseEnabled(s: State) {
    forall id :: id in s.observed ==> s.enabled <= s.observed[id].report.features
  }

  /** Nothing goes back: not the revision, the census generation, the completion or the enabled features; and one
      revision is one state. */
  predicate NotAfter(a: State, b: State) {
    && a.revision <= b.revision && a.manifest.generation <= b.manifest.generation
    && a.manifest.deployment == b.manifest.deployment
    && (a.complete ==> b.complete) && a.enabled <= b.enabled
    && (a.revision == b.revision ==> a == b)
  }

  lemma NotAfterTransitive(a: State, b: State, c: State)
    requires NotAfter(a, b) && NotAfter(b, c)
    ensures NotAfter(a, c)
  {
  }

  lemma ReadyCoversObserved(s: State, features: set<string>, now: int, id: string)
    requires ValidState(s) && Ready(s, features, now) && id in s.observed
    ensures features <= s.observed[id].report.features
  {
    assert ActiveMember(s.manifest, id);
    var i :| 0 <= i < |s.manifest.members| && s.manifest.members[i].id == id && !s.manifest.members[i].retired;
    assert FreshlyAdvertises(s, s.manifest.members[i].id, features, now);
  }

  ghost predicate Reachable(s: Option<State>) {
    s.Some? ==> ValidState(s.value) && AllAdvertiseEnabled(s.value)
  }

  /** One edit onwards: valid, advertised, and exactly one revision later. */
  ghost predicate Onward(s: Option<State>, v: State) {
    Reachable(Some(v)) && (s.Some? ==> NotAfter(s.value, v) && v.revision == s.value.revision + 1)
  }

  lemma ConfigureKeeps(s: Option<State>, previous: nat, m: Manifest)
    requires Reachable(s) && Configure(s, previous, m).Ok?
    ensures Onward(s, Configure(s, previous, m).value)
  {
  }

  lemma RecordKeeps(s: Option<State>, op: Op)
    requires Reachable(s) && op.OpRecord? && Edit(s, op).Ok?
    ensures Onward(s, Edit(s, op).value)
  {
  }

  lemma ActivateKeeps(s: Option<State>, op: Op)
    requires Reachable(s) && op.OpActivate? && Edit(s, op).Ok?
    ensures Onward(s, Edit(s, op).value)
  {
    var v := Edit(s, op).value;
    forall id | id in v.observed ensures v.enabled <= v.observed[id].report.features {
      ReadyCoversObserved(s.value, v.enabled, op.now, id);
    }
  }

  lemma EditKeeps(s: Option<State>, op: Op)
    requires Reachable(s) && Edit(s, op).Ok?
    ensures Onward(s, Edit(s, op).value)
  {
    match op
    case OpConfigure(previous, m) => ConfigureKeeps(s, previous, m);
    case OpRecord(_, _, _, _, _, _) => RecordKeeps(s, op);
    case OpActivate(_, _, _) => ActivateKeeps(s, op);
    case OpEmptied =>
  }

  lemma {:induction false} HistoryReachable(ops: seq<Op>)
    ensures Reachable(After(ops))
  {
    if ops != [] {
      var front, op := ops[..|ops| - 1], ops[|ops| - 1];
      HistoryReachable(front);
      if Edit(After(front), op).Ok? { EditKeeps(After(front), op); }
    }
  }

  /** No save from the k-th edit on emptied the file. */
  ghost predicate NeverEmptied(ops: seq<Op>, k: nat) {
    forall j :: k <= j < |ops| ==> !ops[j].OpEmptied?
  }

  /** In every history, an earlier state of the store is never after a later one, unless a save emptied the file in
      between. */
  lemma {:induction false} HistoryNeverGoesBack(ops: seq<Op>, k: nat)
    requires k <= |ops| && After(ops[..k]).Some?
    ensures NeverEmptied(ops, k) ==> After(ops).Some? && NotAfter(After(ops[..k]).value, After(ops).value)
  {
    if k == |ops| {
      assert ops[..k] == ops;
    } else if NeverEmptied(ops, k) {
      var front, op := ops[..|ops| - 1], ops[|ops| - 1];
      assert front[..k] == ops[..k];
      HistoryNeverGoesBack(front, k);
      HistoryReachable(front);
      if Edit(After(front), op).Ok? {
        EditKeeps(After(front), op);
        NotAfterTransitive(After(ops[..k]).value, After(front).value, After(ops).value);
      }
    }
  }

  ghost predicate NeverBack(ops: seq<Op>, k: nat, n: nat)
    requires k <= n <= |ops|
  {
    After(ops[..k]).Some? && After(ops[..n]).Some? && NotAfter(After(ops[..k]).value, After(ops[..n]).value)
  }

  /** From any state on, the store holds on to everything at every later point if and only if no save empties its
      file. */
  lemma HistoryHoldsIff(ops: seq<Op>, k: nat)
    requires k <= |ops| && After(ops[..k]).Some?
    ensures (forall n | k <= n <= |ops| :: NeverBack(ops, k, n)) <==> NeverEmptied(ops, k)
  {
    if NeverEmptied(ops, k) {
      forall n | k <= n <= |ops| ensures NeverBack(ops, k, n) {
        assert ops[..n][..k] == ops[..k];
        assert NeverEmptied(ops[..n], k);
        HistoryNeverGoesBack(ops[..n], k);
      }
    } else {
      var j :| k <= j < |ops| && ops[j].OpEmptied?;
      assert ops[..j + 1][..j] == ops[..j];
      assert After(ops[..j + 1]) == None;
      assert !NeverBack(ops, k, j + 1);
    }
  }

  lemma FirstConfiguration(m: Manifest)
    requires ValidManifest(m) && m.generation == 1
    ensures Apply(None, OpConfigure(0, m)) == Some(State(Stored(m), 1, false, {}, map[]))
  {
  }

  lemma AfterOneMore(ops: seq<Op>, op: Op)
    ensures After(ops + [op]) == Apply(After(ops), op)
  {
    assert (ops + [op])[..|ops|] == ops;
  }

  /** An emptied store starts over, and gives an old revision number to another state. */
  lemma EmptiedStoreStartsOver(m: Manifest, n: Manifest)
    requires ValidManifest(m) && ValidManifest(n) && m.generation == n.generation == 1 && Stored(m) != Stored(n)
    ensures var ops := [OpConfigure(0, m), OpEmptied, OpConfigure(0, n)];
            && After(ops[..1]).Some? && After(ops).Some?
            && After(ops[..1]).value.revision == After(ops).value.revision && After(ops[..1]) != After(ops)
  {
    var first, last := OpConfigure(0, m), OpConfigure(0, n);
    var ops := [first, OpEmptied, last];
    assert ops[..1] == [] + [first] && ops == [first, OpEmptied] + [last] && [first, OpEmptied] == [first] + [OpEmptied];
    AfterOneMore([], first);
    AfterOneMore([first], OpEmptied);
    AfterOneMore([first, OpEmptied], last);
    FirstConfiguration(m);
    FirstConfiguration(n);
  }

  /** The baseline as stored is never the empty one. */
  ghost predicate BaselineStored(s: Option<State>) { s.Some? ==> s.value.manifest.providers != Some(map[]) }

  /** The later census has every member of the earlier one, with its role and pin, and none comes back from
      retirement; the provider baseline is the same. */
  ghost predicate CensusContinues(a: Manifest, b: Manifest) {
    a.providers == b.providers && forall i :: 0 <= i < |a.members| ==> Continues(a.members[i], b)
  }

  lemma SameMember(m: Manifest, i: nat)
    requires i < |m.members|
    ensures Continues(m.members[i], m)
  {
  }

  lemma CensusTransitive(a: Manifest, b: Manifest, c: Manifest)
    requires CensusContinues(a, b) && CensusContinues(b, c)
    ensures CensusContinues(a, c)
  {
    forall i | 0 <= i < |a.members| ensures Continues(a.members[i], c) {
      assert Continues(a.members[i], b);
      var j :| 0 <= j < |b.members| && b.members[j].id == a.members[i].id && b.members[j].role == a.members[i].role
               && b.members[j].pin == a.members[i].pin && (a.members[i].retired ==> b.members[j].retired);
      assert Continues(b.members[j], c);
    }
  }

  lemma EditKeepsCensus(s: State, op: Op)
    requires BaselineStored(Some(s)) && Edit(Some(s), op).Ok?
    ensures CensusContinues(s.manifest, Edit(Some(s), op).value.manifest) && BaselineStored(Some(Edit(Some(s), op).value))
  {
    forall i | 0 <= i < |s.manifest.members| ensures Continues(s.manifest.members[i], s.manifest) { SameMember(s.manifest, i); }
    if op.OpConfigure? {
      var next := op.manifest;
      assert Edit(Some(s), op).value.manifest == Stored(next) && Stored(next) == next;
    }
  }

  lemma {:induction false} BaselineIsStored(ops: seq<Op>)
    ensures BaselineStored(After(ops))
  {
    if ops != [] { BaselineIsStored(ops[..|ops| - 1]); }
  }

  /** In every history the census only grows and retires: an id keeps its role and its pin, a retired member stays
      retired, and the provider baseline never changes, unless a save emptied the file. */
  lemma {:induction false} HistoryKeepsCensus(ops: seq<Op>, k: nat)
    requires k <= |ops| && After(ops[..k]).Some?
    ensures NeverEmptied(ops, k) ==>
              After(ops).Some? && CensusContinues(After(ops[..k]).value.manifest, After(ops).value.manifest)
  {
    if k == |ops| {
      assert ops[..k] == ops;
      var m := After(ops).value.manifest;
      forall i | 0 <= i < |m.members| ensures Continues(m.members[i], m) { SameMember(m, i); }
    } else if NeverEmptied(ops, k) {
      var front, op := ops[..|ops| - 1], ops[|ops| - 1];
      assert front[..k] == ops[..k];
      HistoryKeepsCensus(front, k);
      BaselineIsStored(front);
      if Edit(After(front), op).Ok? {
        EditKeepsCensus(After(front).value, op);
        CensusTransitive(After(ops[..k]).value.manifest, After(front).value.manifest, After(ops).value.manifest);
      }
    }
  }

  /** The edit is an activation that added the feature, and at that moment every non-retired member of the census
      had advertised it within the freshness limit. */
  ghost predicate ActivatesFeature(s: Option<State>, op: Op, feature: string) {
    && op.OpActivate? && s.Some? && feature !in s.value.enabled
    && Edit(s, op).Ok? && feature in Edit(s, op).value.enabled
    && forall id :: ActiveMember(s.value.manifest, id) ==> FreshlyAdvertises(s.value, id, {feature}, op.now)
  }

  lemma ActivationWasReady(s: State, op: Op, feature: string, id: string)
    requires op.OpActivate? && Activate(Some(s), op.generation, op.features, op.now).Ok?
    requires feature in Activate(Some(s), op.generation, op.features, op.now).value.enabled
    requires ActiveMember(s.manifest, id)
    ensures FreshlyAdvertises(s, id, {feature}, op.now)
  {
    var i :| 0 <= i < |s.manifest.members| && s.manifest.members[i].id == id && !s.manifest.members[i].retired;
    assert FreshlyAdvertises(s, s.manifest.members[i].id, NormalizeFeatures(op.features).value, op.now);
  }

  /** Only an activation can add a feature. */
  lemma NewFeatureWasActivated(s: Option<State>, op: Op, feature: string)
    requires Reachable(s) && Edit(s, op).Ok? && feature in Edit(s, op).value.enabled
    requires s.Some? ==> feature !in s.value.enabled
    ensures ActivatesFeature(s, op, feature)
  {
    assert op.OpActivate? && s.Some?;
    forall id | ActiveMember(s.value.manifest, id) ensures FreshlyAdvertises(s.value, id, {feature}, op.now) {
      ActivationWasReady(s.value, op, feature, id);
    }
  }

  ghost predicate ActivatedAt(ops: seq<Op>, k: int, feature: string) {
    0 <= k < |ops| && ActivatesFeature(After(ops[..k]), ops[k], feature)
  }

  /** A feature enabled in any state of any history was put there by such an activation. */
  lemma {:induction false} EnabledWasActivated(ops: seq<Op>, feature: string)
    requires After(ops).Some? && feature in After(ops).value.enabled
    ensures exists k :: ActivatedAt(ops, k, feature)
  {
    var n := |ops| - 1;
    var front := ops[..n];
    if After(front).Some? && feature in After(front).value.enabled {
      EnabledWasActivated(front, feature);
      var k :| ActivatedAt(front, k, feature);
      assert front[..k] == ops[..k];
      assert ActivatedAt(ops, k, feature);
    } else {
      HistoryReachable(front);
      NewFeatureWasActivated(After(front), ops[n], feature);
      assert ActivatedAt(ops, n, feature);
    }
  }
}
