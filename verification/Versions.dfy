/** Agent versions (agentupdate/version.go) and the applicability rule of a signed manifest
    (agentupdate/manifest.go). */
module Versions {
  import opened Text

  /** A parsed version. The empty pre-release marks a release; build metadata is never compared. */
  datatype Version = Version(major: nat, minor: nat, patch: nat, pre: string, build: string)

  function Dotted(a: string, b: string, c: string): string {
    a + "." + b + "." + c
  }

  function Core(v: Version): string {
    var triple := Dotted(Itoa(v.major), Itoa(v.minor), Itoa(v.patch));
    if v.pre == "" then triple else triple + "-" + v.pre
  }

  function Render(v: Version): string {
    if v.build == "" then Core(v) else Core(v) + "+" + v.build
  }

  /** One of major, minor, patch: digits, in range, no superfluous leading zero. */
  function ParseComponent(p: string): Option<nat> {
    match Atoi(p)
    case None => None
    case Some(n) => if n < 0 || (|p| > 1 && p[0] == '0') then None else Some(n as nat)
  }

  function ParseTriple(raw: string, pre: string, build: string): Option<Version> {
    var parts := Split(raw, '.');
    if |parts| != 3 then None
    else
      match (ParseComponent(parts[0]), ParseComponent(parts[1]), ParseComponent(parts[2]))
      case (Some(a), Some(b), Some(c)) => Some(Version(a, b, c, pre, build))
      case _ => None
  }

  function ParseWithoutBuild(raw: string, build: string): Option<Version> {
    var i := IndexOf(raw, '-');
    if i < 0 then ParseTriple(raw, "", build)
    else if raw[i + 1..] == "" then None
    else ParseTriple(raw[..i], raw[i + 1..], build)
  }

  function ParseVersion(s: string): Option<Version> {
    var raw := TrimSpace(s);
    var i := IndexOf(raw, '+');
    if raw == "" then None
    else if i < 0 then ParseWithoutBuild(raw, "")
    else if raw[i + 1..] == "" then None
    else ParseWithoutBuild(raw[..i], raw[i + 1..])
  }

  /** The parser as the code runs it: cut the build, cut the pre-release, then loop over the parts. */
  method Parse(s: string) returns (v: Option<Version>)
    ensures v == ParseVersion(s)
  {
    var raw := TrimSpace(s);
    if raw == "" { return None; }
    var build := "";
    var i := IndexOf(raw, '+');
    if i >= 0 {
      build, raw := raw[i + 1..], raw[..i];
      if build == "" { return None; }
    }
    v := ParseRelease(raw, build);
  }

  method ParseRelease(core: string, build: string) returns (v: Option<Version>)
    ensures v == ParseWithoutBuild(core, build)
  {
    var raw, pre := core, "";
    var i := IndexOf(raw, '-');
    if i >= 0 {
      pre, raw := raw[i + 1..], raw[..i];
      if pre == "" { return None; }
    }
    v := ParseParts(raw, pre, build);
  }

  method ParseParts(raw: string, pre: string, build: string) returns (v: Option<Version>)
    ensures v == ParseTriple(raw, pre, build)
  {
    var parts := Split(raw, '.');
    if |parts| != 3 { return None; }
    var nums: seq<nat> := [];
    var k := 0;
    while k < 3
      invariant k <= 3 && |nums| == k
      invariant forall q :: 0 <= q < k ==> ParseComponent(parts[q]) == Some(nums[q])
    {
      var n := Atoi(parts[k]);
      if n.None? || n.value < 0 || (|parts[k]| > 1 && parts[k][0] == '0') {
        assert ParseComponent(parts[k]) == None;
        return None;
      }
      nums := nums + [n.value];
      k := k + 1;
    }
    return Some(Version(nums[0], nums[1], nums[2], pre, build));
  }

  // ---- round trip ----

  lemma ComponentRoundTrip(p: string)
    requires ParseComponent(p).Some?
    requires '-' !in p && '+' !in p
    ensures Itoa(ParseComponent(p).value) == p
  {
    assert AllDigits(p);
    ItoaOfValue(p);
  }

  lemma JoinOfThree(a: string, b: string, c: string)
    ensures Join([a, b, c], '.') == Dotted(a, b, c)
  {
    assert [a, b, c][1..] == [b, c] && [b, c][1..] == [c];
    assert Join([b, c], '.') == b + "." + c;
    assert a + "." + (b + "." + c) == a + "." + b + "." + c;
  }

  lemma TripleRoundTrip(raw: string, pre: string, build: string)
    requires '-' !in raw && '+' !in raw
    requires ParseTriple(raw, pre, build).Some?
    ensures var v := ParseTriple(raw, pre, build).value;
      v.pre == pre && v.build == build && Dotted(Itoa(v.major), Itoa(v.minor), Itoa(v.patch)) == raw
  {
    var parts := Split(raw, '.');
    forall k | 0 <= k < 3 ensures '-' !in parts[k] && '+' !in parts[k] {
      if '-' in parts[k] { SplitPartsAreDrawnFrom(raw, '.', parts[k], '-'); }
      if '+' in parts[k] { SplitPartsAreDrawnFrom(raw, '.', parts[k], '+'); }
    }
    ComponentRoundTrip(parts[0]);
    ComponentRoundTrip(parts[1]);
    ComponentRoundTrip(parts[2]);
    JoinSplit(raw, '.');
    assert parts == [parts[0], parts[1], parts[2]];
    JoinOfThree(parts[0], parts[1], parts[2]);
  }

  lemma WithoutBuildRoundTrip(raw: string, build: string)
    requires '+' !in raw
    requires ParseWithoutBuild(raw, build).Some?
    ensures var v := ParseWithoutBuild(raw, build).value; v.build == build && Core(v) == raw
  {
    var i := IndexOf(raw, '-');
    if i < 0 {
      TripleRoundTrip(raw, "", build);
    } else {
      TripleRoundTrip(raw[..i], raw[i + 1..], build);
      CutAt(raw, i);
    }
  }

  /** Parsing loses nothing: printing a parsed version gives the trimmed input back, character for character. */
  lemma ParseThenRender(s: string)
    requires ParseVersion(s).Some?
    ensures Render(ParseVersion(s).value) == TrimSpace(s)
  {
    var raw := TrimSpace(s);
    var i := IndexOf(raw, '+');
    if i < 0 {
      WithoutBuildRoundTrip(raw, "");
    } else {
      WithoutBuildRoundTrip(raw[..i], raw[i + 1..]);
      CutAt(raw, i);
    }
  }

  // ---- order ----

  /** How one pre-release identifier is ranked: numbers below text. */
  datatype Rank = Number(n: int) | Word(text: string)

  /** The classification the code uses: whatever Atoi accepts is a number. */
  function RankOf(id: string): Rank {
    match Atoi(id)
    case Some(n) => Number(n)
    case None => Word(id)
  }

  function CompareRank(a: Rank, b: Rank): int {
    match (a, b)
    case (Number(m), Number(n)) => CompareInt(m, n)
    case (Number(_), Word(_)) => -1
    case (Word(_), Number(_)) => 1
    case (Word(s), Word(t)) => CompareText(s, t)
  }

  /** Lexicographic order of rank lists, a proper prefix ranking lower. */
  function CompareRanks(a: seq<Rank>, b: seq<Rank>): int {
    if a == [] || b == [] then CompareInt(|a|, |b|)
    else if CompareRank(a[0], b[0]) != 0 then CompareRank(a[0], b[0])
    else CompareRanks(a[1..], b[1..])
  }

  function RanksOf(ids: seq<string>): (ranks: seq<Rank>)
    ensures |ranks| == |ids|
    ensures forall i :: 0 <= i < |ids| ==> ranks[i] == RankOf(ids[i])
  {
    seq(|ids|, i requires 0 <= i < |ids| => RankOf(ids[i]))
  }

  function ComparePreRelease(a: string, b: string): int {
    CompareRanks(RanksOf(Split(a, '.')), RanksOf(Split(b, '.')))
  }

  /** The comparison as the code runs it: a loop that skips equal identifiers. */
  method ComparePreReleaseLoop(a: string, b: string) returns (r: int)
    ensures r == ComparePreRelease(a, b)
  {
    var xs, ys := Split(a, '.'), Split(b, '.');
    ghost var rx, ry := RanksOf(xs), RanksOf(ys);
    var i := 0;
    while i < |xs| && i < |ys|
      invariant i <= |xs| && i <= |ys|
      invariant CompareRanks(rx, ry) == CompareRanks(rx[i..], ry[i..])
    {
      assert rx[i..][0] == RankOf(xs[i]) && ry[i..][0] == RankOf(ys[i]);
      assert rx[i..][1..] == rx[i + 1..] && ry[i..][1..] == ry[i + 1..];
      if xs[i] != ys[i] {
        var m, n := Atoi(xs[i]), Atoi(ys[i]);
        if m.Some? && n.Some? {
          if m.value != n.value {
            return if m.value < n.value then -1 else 1;
          }
        } else if m.Some? {
          return -1;
        } else if n.Some? {
          return 1;
        } else {
          return if CompareText(xs[i], ys[i]) < 0 then -1 else 1;
        }
      }
      i := i + 1;
    }
    return CompareInt(|xs|, |ys|);
  }

  function CompareVersions(a: Version, b: Version): int {
    if a.major != b.major then CompareInt(a.major, b.major)
    else if a.minor != b.minor then CompareInt(a.minor, b.minor)
    else if a.patch != b.patch then CompareInt(a.patch, b.patch)
    else if a.pre == b.pre then 0
    else if a.pre == "" then 1
    else if b.pre == "" then -1
    else ComparePreRelease(a.pre, b.pre)
  }

  lemma {:induction false} RanksReflexive(a: seq<Rank>)
    ensures CompareRanks(a, a) == 0
  {
    if a != [] {
      RanksReflexive(a[1..]);
    }
  }

  lemma {:induction false} RanksAntisymmetric(a: seq<Rank>, b: seq<Rank>)
    ensures CompareRanks(a, b) == -CompareRanks(b, a)
  {
    if a != [] && b != [] {
      if a[0].Word? && b[0].Word? { CompareTextAntisymmetric(a[0].text, b[0].text); }
      RanksAntisymmetric(a[1..], b[1..]);
    }
  }

  lemma RankTransitive(a: Rank, b: Rank, c: Rank)
    requires CompareRank(a, b) <= 0 && CompareRank(b, c) <= 0
    ensures CompareRank(a, c) <= 0
    ensures CompareRank(a, c) == 0 ==> CompareRank(a, b) == 0 && CompareRank(b, c) == 0
  {
    if a.Word? && b.Word? && c.Word? {
      CompareTextTransitive(a.text, b.text, c.text);
      CompareTextAntisymmetric(a.text, b.text);
    }
  }

  lemma {:induction false} RanksTransitive(a: seq<Rank>, b: seq<Rank>, c: seq<Rank>)
    requires CompareRanks(a, b) <= 0 && CompareRanks(b, c) <= 0
    ensures CompareRanks(a, c) <= 0
  {
    if a != [] && b != [] && c != [] {
      RankTransitive(a[0], b[0], c[0]);
      if CompareRank(a[0], c[0]) == 0 {
        RanksTransitive(a[1..], b[1..], c[1..]);
      }
    }
  }

  lemma VersionsReflexive(a: Version)
    ensures CompareVersions(a, a) == 0
  {
  }

  /** The order is total: exactly one of less, equal, greater, whichever side is asked. */
  lemma VersionsTotal(a: Version, b: Version)
    ensures CompareVersions(a, b) == -CompareVersions(b, a)
  {
    RanksAntisymmetric(RanksOf(Split(a.pre, '.')), RanksOf(Split(b.pre, '.')));
  }

  lemma VersionsTransitive(a: Version, b: Version, c: Version)
    requires CompareVersions(a, b) <= 0 && CompareVersions(b, c) <= 0
    ensures CompareVersions(a, c) <= 0
  {
    if a.major == b.major == c.major && a.minor == b.minor == c.minor && a.patch == b.patch == c.patch {
      var x, y, z := RanksOf(Split(a.pre, '.')), RanksOf(Split(b.pre, '.')), RanksOf(Split(c.pre, '.'));
      if a.pre != "" && b.pre != "" && c.pre != "" {
        RanksReflexive(x);
        RanksReflexive(y);
        RanksTransitive(x, y, z);
      }
    }
  }

  /** Strictly below, then at most: strictly below. */
  lemma VersionsStrictTransitive(a: Version, b: Version, c: Version)
    requires CompareVersions(a, b) <= 0 && CompareVersions(b, c) <= 0
    requires CompareVersions(a, b) < 0 || CompareVersions(b, c) < 0
    ensures CompareVersions(a, c) < 0
  {
    VersionsTransitive(a, b, c);
    if CompareVersions(a, c) == 0 {
      VersionsTotal(a, c);
      VersionsTotal(a, b);
      VersionsTotal(b, c);
      if CompareVersions(a, b) < 0 { VersionsTransitive(b, c, a); } else { VersionsTransitive(c, a, b); }
    }
  }

  // ---- section 11 of Semantic Versioning 2.0.0 ----

  /** The standard's classification: an identifier of digits only is numeric, without bound. */
  function StandardRank(id: string): Rank {
    if AllDigits(id) then Number(Value(id)) else Word(id)
  }

  function StandardRanks(ids: seq<string>): (ranks: seq<Rank>)
    ensures |ranks| == |ids|
    ensures forall i :: 0 <= i < |ids| ==> ranks[i] == StandardRank(ids[i])
  {
    seq(|ids|, i requires 0 <= i < |ids| => StandardRank(ids[i]))
  }

  /** Precedence as the standard words it, independent of how the code parses numbers. */
  function StandardPrecedence(a: Version, b: Version): int {
    if a.major != b.major then CompareInt(a.major, b.major)
    else if a.minor != b.minor then CompareInt(a.minor, b.minor)
    else if a.patch != b.patch then CompareInt(a.patch, b.patch)
    else if a.pre == "" || b.pre == "" then CompareInt(if a.pre == "" then 1 else 0, if b.pre == "" then 1 else 0)
    else CompareRanks(StandardRanks(Split(a.pre, '.')), StandardRanks(Split(b.pre, '.')))
  }

  /** Not a signed number that fits, and not digits too large to fit. */
  predicate OrdinaryIdentifier(id: string) {
    if AllDigits(id) then Value(id) <= INT_MAX
    else id == "" || !(id[0] == '+' || id[0] == '-') || Atoi(id).None?
  }

  /** The code ranks an identifier as the standard does exactly when the identifier is ordinary. */
  lemma RankAgreesIff(id: string)
    ensures RankOf(id) == StandardRank(id) <==> OrdinaryIdentifier(id)
  {
    if AllDigits(id) {
      assert IsDigit(id[0]);
    }
  }

  predicate OrdinaryPreRelease(pre: string) {
    forall i :: 0 <= i < |Split(pre, '.')| ==> OrdinaryIdentifier(Split(pre, '.')[i])
  }

  lemma OrderFollowsStandard(a: Version, b: Version)
    requires OrdinaryPreRelease(a.pre) && OrdinaryPreRelease(b.pre)
    ensures CompareVersions(a, b) == StandardPrecedence(a, b)
  {
    var xs, ys := Split(a.pre, '.'), Split(b.pre, '.');
    forall i | 0 <= i < |xs| ensures RankOf(xs[i]) == StandardRank(xs[i]) { RankAgreesIff(xs[i]); }
    forall i | 0 <= i < |ys| ensures RankOf(ys[i]) == StandardRank(ys[i]) { RankAgreesIff(ys[i]); }
    assert RanksOf(xs) == StandardRanks(xs) && RanksOf(ys) == StandardRanks(ys);
    RanksReflexive(RanksOf(xs));
  }

  /** An ordinary word that tells the two rankings of an odd identifier apart. */
  function Opponent(id: string): string
    requires id != ""
  {
    if AllDigits(id) then "-" else [id[0]]
  }

  lemma OddIsToldApart(id: string)
    requires !OrdinaryIdentifier(id)
    ensures id != "" && OrdinaryIdentifier(Opponent(id)) && Opponent(id) != id
    ensures RankOf(Opponent(id)) == StandardRank(Opponent(id)) == Word(Opponent(id))
    ensures CompareRank(RankOf(id), Word(Opponent(id))) == -CompareRank(StandardRank(id), Word(Opponent(id))) != 0
  {
    var x := Opponent(id);
    assert x[1..] == "" && !IsDigit(x[0]);
    if !AllDigits(id) {
      assert id[0] == x[0] && id[1..] != "";
      assert CompareText(id, x) == CompareText(id[1..], x[1..]);
    }
  }

  /** Where the ranks first differ decides. */
  lemma {:induction false} RanksDecidedAt(a: seq<Rank>, b: seq<Rank>, i: nat)
    requires i < |a| && i < |b| && a[..i] == b[..i] && CompareRank(a[i], b[i]) != 0
    ensures CompareRanks(a, b) == CompareRank(a[i], b[i])
  {
    if i > 0 {
      assert a[0] == a[..i][0] == b[..i][0] == b[0];
      assert CompareRank(a[0], b[0]) == 0 by { RanksReflexive([a[0]]); }
      assert a[1..][..i - 1] == a[..i][1..] && b[1..][..i - 1] == b[..i][1..];
      RanksDecidedAt(a[1..], b[1..], i - 1);
    }
  }

  lemma {:induction false} FirstOdd(ids: seq<string>) returns (i: nat)
    requires exists k :: 0 <= k < |ids| && !OrdinaryIdentifier(ids[k])
    ensures i < |ids| && !OrdinaryIdentifier(ids[i]) && forall j :: 0 <= j < i ==> OrdinaryIdentifier(ids[j])
  {
    if !OrdinaryIdentifier(ids[0]) {
      i := 0;
    } else {
      var k :| 0 <= k < |ids| && !OrdinaryIdentifier(ids[k]);
      assert ids[1..][k - 1] == ids[k];
      var n := FirstOdd(ids[1..]);
      i := n + 1;
      forall j | 0 <= j < i ensures OrdinaryIdentifier(ids[j]) { assert j > 0 ==> ids[j] == ids[1..][j - 1]; }
    }
  }

  /** The identifiers up to the odd one, and its opponent in its place. */
  lemma DistinguishingRanks(ids: seq<string>, i: nat)
    requires i < |ids| && !OrdinaryIdentifier(ids[i]) && ids[i] != ""
    requires forall j :: 0 <= j < i ==> OrdinaryIdentifier(ids[j])
    ensures var parts := ids[..i] + [Opponent(ids[i])];
            CompareRanks(RanksOf(ids), RanksOf(parts)) != CompareRanks(StandardRanks(ids), StandardRanks(parts))
  {
    var parts := ids[..i] + [Opponent(ids[i])];
    OddIsToldApart(ids[i]);
    assert RanksOf(ids)[..i] == RanksOf(parts)[..i] && StandardRanks(ids)[..i] == StandardRanks(parts)[..i];
    RanksDecidedAt(RanksOf(ids), RanksOf(parts), i);
    RanksDecidedAt(StandardRanks(ids), StandardRanks(parts), i);
  }

  lemma OddVersionHasOpponent(a: Version) returns (b: Version)
    requires !OrdinaryPreRelease(a.pre)
    ensures OrdinaryPreRelease(b.pre) && CompareVersions(a, b) != StandardPrecedence(a, b)
  {
    var ids := Split(a.pre, '.');
    var i := FirstOdd(ids);
    OddIsToldApart(ids[i]);
    var parts := ids[..i] + [Opponent(ids[i])];
    forall j | 0 <= j < |ids| ensures '.' !in ids[j] {
      if '.' in ids[j] { SplitPartsAreDrawnFrom(a.pre, '.', ids[j], '.'); }
    }
    assert '.' !in parts[i] by { assert ids[i][0] in ids[i]; }
    SplitJoin(parts, '.');
    b := Version(a.major, a.minor, a.patch, Join(parts, '.'), "");
    DistinguishingRanks(ids, i);
    assert parts[i] != ids[i] && parts[i] != "";
    OneIdentifier("");
  }

  /** A version's identifiers are ordinary if and only if the code orders it against every ordinary version as the
      standard does. */
  lemma OrdinaryIffStandard(a: Version)
    ensures OrdinaryPreRelease(a.pre) <==>
            forall b: Version :: OrdinaryPreRelease(b.pre) ==> CompareVersions(a, b) == StandardPrecedence(a, b)
  {
    if OrdinaryPreRelease(a.pre) {
      forall b: Version | OrdinaryPreRelease(b.pre) ensures CompareVersions(a, b) == StandardPrecedence(a, b) {
        OrderFollowsStandard(a, b);
      }
    } else {
      var b := OddVersionHasOpponent(a);
    }
  }

  /** Digits beyond the range of the parser are read as text and rank above the word "-"; the standard ranks them below. */
  lemma LargeIdentifierDeviates()
    ensures var large, dash := Version(1, 0, 0, Itoa(INT_MAX + 1), ""), Version(1, 0, 0, "-", "");
            CompareVersions(large, dash) == 1 && StandardPrecedence(large, dash) == -1
  {
    var id := Itoa(INT_MAX + 1);
    ValueOfItoa(INT_MAX + 1);
    assert !OrdinaryIdentifier(id);
    OddIsToldApart(id);
    assert '.' !in id;
    OneIdentifier(id);
    OneIdentifier("-");
    SingleRanks(RanksOf([id]), RanksOf(["-"]));
    SingleRanks(StandardRanks([id]), StandardRanks(["-"]));
  }

  lemma OneIdentifier(id: string)
    requires '.' !in id
    ensures Split(id, '.') == [id]
  {
  }

  lemma SignedRanks()
    ensures RankOf("-5") == Number(-5) && RankOf("1") == Number(1)
    ensures StandardRank("-5") == Word("-5") && StandardRank("1") == Number(1)
  {
    assert "-5"[1..] == "5" && Value("5") == 5 && Value("1") == 1;
    assert !AllDigits("-5") by { assert "-5"[0] == '-'; }
  }

  lemma SingleRanks(a: seq<Rank>, b: seq<Rank>)
    requires |a| == |b| == 1 && CompareRank(a[0], b[0]) != 0
    ensures CompareRanks(a, b) == CompareRank(a[0], b[0])
  {
  }

  /** A signed identifier breaks the agreement: the code reads "-5" as minus five and ranks it below "1";
      the standard reads it as text and ranks it above. */
  lemma SignedIdentifierDeviates()
    ensures CompareVersions(Version(1, 0, 0, "-5", ""), Version(1, 0, 0, "1", "")) == -1
    ensures StandardPrecedence(Version(1, 0, 0, "-5", ""), Version(1, 0, 0, "1", "")) == 1
  {
    OneIdentifier("-5");
    OneIdentifier("1");
    SignedRanks();
    SingleRanks(RanksOf(["-5"]), RanksOf(["1"]));
    SingleRanks(StandardRanks(["-5"]), StandardRanks(["1"]));
  }

  // ---- same release ----

  /** Whether two strings name the same release; unparseable strings only match themselves. */
  predicate SameVersion(a: string, b: string) {
    var x, y := TrimSpace(a), TrimSpace(b);
    && x != "" && y != ""
    && match (ParseVersion(x), ParseVersion(y))
       case (Some(v), Some(w)) => CompareVersions(v, w) == 0
       case _ => x == y
  }

  lemma SameVersionReflexive(a: string)
    ensures SameVersion(a, a) <==> !Blank(a)
  {
  }

  lemma SameVersionSymmetric(a: string, b: string)
    ensures SameVersion(a, b) <==> SameVersion(b, a)
  {
    match (ParseVersion(TrimSpace(a)), ParseVersion(TrimSpace(b)))
    case (Some(v), Some(w)) => VersionsTotal(v, w);
    case _ =>
  }

  lemma SameVersionTransitive(a: string, b: string, c: string)
    requires SameVersion(a, b) && SameVersion(b, c)
    ensures SameVersion(a, c)
  {
    match (ParseVersion(TrimSpace(a)), ParseVersion(TrimSpace(b)), ParseVersion(TrimSpace(c)))
    case (Some(u), Some(v), Some(w)) =>
      VersionsTransitive(u, v, w);
      VersionsTotal(u, v);
      VersionsTotal(v, w);
      VersionsTotal(u, w);
      VersionsTransitive(w, v, u);
    case _ =>
  }

  // ---- applicability ----

  datatype Manifest = Manifest(version: string, platform: string, arch: string, minFrom: string)

  datatype Refusal = PlatformMismatch | ArchMismatch | UnreadableRunning | UnreadableTarget
                   | NotAnUpgrade | UnreadableMinFrom | MinFromNotMet

  /** None is the only answer that authorises an update. */
  function Applicable(m: Manifest, running: string, platform: string, arch: string): Option<Refusal> {
    if m.platform != platform then Some(PlatformMismatch)
    else if m.arch != arch then Some(ArchMismatch)
    else
      match (ParseVersion(running), ParseVersion(m.version))
      case (None, _) => Some(UnreadableRunning)
      case (Some(_), None) => Some(UnreadableTarget)
      case (Some(current), Some(target)) =>
        if CompareVersions(target, current) <= 0 then Some(NotAnUpgrade)
        else if Blank(m.minFrom) then None
        else match ParseVersion(m.minFrom)
          case None => Some(UnreadableMinFrom)
          case Some(minFrom) => if CompareVersions(current, minFrom) < 0 then Some(MinFromNotMet) else None
  }

  /** A history of a device that only ever took updates its manifests admitted: at step i it ran
      `running[i]`, manifest `offers[i]` was applicable, and what came back up names that release. */
  ghost predicate UpdateChain(running: seq<string>, offers: seq<Manifest>, platform: string, arch: string) {
    && |running| == |offers| + 1
    && forall i :: 0 <= i < |offers| ==>
      && Applicable(offers[i], running[i], platform, arch) == None
      && SameVersion(offers[i].version, running[i + 1])
  }

  /** Both strings parse and the first names the lower release. */
  predicate Below(a: string, b: string) {
    match (ParseVersion(a), ParseVersion(b))
    case (Some(v), Some(w)) => CompareVersions(v, w) < 0
    case _ => false
  }

  lemma BelowTransitive(a: string, b: string, c: string)
    requires Below(a, b) && Below(b, c)
    ensures Below(a, c)
  {
    VersionsStrictTransitive(ParseVersion(a).value, ParseVersion(b).value, ParseVersion(c).value);
  }

  lemma BelowIsDifferent(a: string, b: string)
    requires Below(a, b)
    ensures !SameVersion(a, b)
  {
    TrimIdempotent(a);
    TrimIdempotent(b);
  }

  lemma ChainStep(running: string, offer: Manifest, next: string, platform: string, arch: string)
    requires Applicable(offer, running, platform, arch) == None
    requires SameVersion(offer.version, next)
    ensures Below(running, next)
  {
    TrimIdempotent(offer.version);
    TrimIdempotent(next);
    var current, target := ParseVersion(running).value, ParseVersion(offer.version).value;
    VersionsTotal(current, target);
    var landed := ParseVersion(next);
    if landed.Some? {
      VersionsStrictTransitive(current, target, landed.value);
    }
  }

  lemma {:induction false} StepsClimb<T(!new)>(xs: seq<T>, below: (T, T) -> bool, i: nat, j: nat)
    requires forall k :: 0 <= k < |xs| - 1 ==> below(xs[k], xs[k + 1])
    requires forall a, b, c :: below(a, b) && below(b, c) ==> below(a, c)
    requires i < j < |xs|
    ensures below(xs[i], xs[j])
    decreases j
  {
    if i < j - 1 {
      StepsClimb(xs, below, i, j - 1);
      assert below(xs[j - 1], xs[j - 1 + 1]);
    }
  }

  /** Along any chain of admitted updates the release strictly climbs, and no chain ever comes back to a
      release it has left. */
  lemma ChainClimbs(running: seq<string>, offers: seq<Manifest>, platform: string, arch: string, i: nat, j: nat)
    requires UpdateChain(running, offers, platform, arch)
    requires i < j < |running|
    ensures Below(running[i], running[j])
    ensures !SameVersion(running[i], running[j])
  {
    forall k | 0 <= k < |running| - 1 ensures Below(running[k], running[k + 1]) {
      ChainStep(running[k], offers[k], running[k + 1], platform, arch);
    }
    forall a, b, c | Below(a, b) && Below(b, c) ensures Below(a, c) {
      BelowTransitive(a, b, c);
    }
    StepsClimb(running, Below, i, j);
    BelowIsDifferent(running[i], running[j]);
  }
}
