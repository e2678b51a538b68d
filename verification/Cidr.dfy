/** Address blocks and their collisions (connector/route.go, the CIDR side). A block is a masked base address and a
    prefix length; texts that do not parse as a block are None. */
module Cidr {
  import opened Text

  datatype Family = V4 | V6

  datatype Address = Address(family: Family, value: nat)

  datatype Block = Block(family: Family, base: nat, prefix: nat)

  datatype Relation = Equal | Contains | ContainedBy | Overlap

  function Bits(f: Family): nat { if f == V4 then 32 else 128 }

  function Pow2(n: nat): (p: nat)
    ensures p > 0
  {
    if n == 0 then 1 else 2 * Pow2(n - 1)
  }

  /** The number of addresses in the block. */
  function Size(b: Block): (n: nat)
    requires b.prefix <= Bits(b.family)
    ensures n > 0
  {
    Pow2(Bits(b.family) - b.prefix)
  }

  /** What parsing a block text yields: the host bits of the base are zero. */
  predicate Masked(b: Block) {
    b.prefix <= Bits(b.family) && b.base < Pow2(Bits(b.family)) && b.base % Size(b) == 0
  }

  type MaskedBlock = b: Block | Masked(b) witness Block(V4, 0, 0)

  predicate InBlock(b: Block, a: Address)
    requires Masked(b)
  {
    a.family == b.family && a.value / Size(b) == b.base / Size(b)
  }

  function Base(b: Block): Address { Address(b.family, b.base) }

  /** One block contains the other's base address. */
  predicate NetsOverlap(a: Block, b: Block)
    requires Masked(a) && Masked(b)
  {
    InBlock(a, Base(b)) || InBlock(b, Base(a))
  }

  function RelationOf(a: Block, b: Block): Relation
    requires Masked(a) && Masked(b)
  {
    if a.prefix == b.prefix && Base(a) == Base(b) then Equal
    else if a.prefix < b.prefix && InBlock(a, Base(b)) then Contains
    else if b.prefix < a.prefix && InBlock(b, Base(a)) then ContainedBy
    else Overlap
  }

  // ---- arithmetic ----

  /** Quotient and remainder are determined. */
  lemma QuotientIs(x: nat, d: nat, q: nat, low: nat)
    requires d > 0 && x == d * q + low && low < d
    ensures x / d == q
  {
    var e := x / d;
    assert d * (e - q) == low - x % d;
    if e > q { AtLeastOnce(d, e - q); }
    if e < q { AtLeastOnce(d, q - e); }
  }

  lemma AtLeastOnce(d: nat, k: nat)
    requires k >= 1
    ensures d * k >= d
  {
  }

  lemma Doubled(p: nat, s: nat)
    ensures p * (2 * s) == (2 * p) * s && p * (2 * s + 1) == (2 * p) * s + p
  {
  }

  lemma HalveParts(x: nat, p: nat, s: nat, odd: bool, low: nat)
    requires low < p && x == p * (if odd then 2 * s + 1 else 2 * s) + low
    ensures x / (2 * p) == s
  {
    Doubled(p, s);
    QuotientIs(x, 2 * p, s, if odd then p + low else low);
  }

  lemma HalveQuotient(x: nat, p: nat)
    requires p > 0
    ensures x / (2 * p) == (x / p) / 2
  {
    var r := x / p;
    HalveParts(x, p, r / 2, r % 2 == 1, x % p);
  }

  /** Agreement on a longer prefix is agreement on a shorter one. */
  lemma {:induction false} CoarserAgrees(x: nat, y: nat, m: nat, n: nat)
    requires m <= n && x / Pow2(m) == y / Pow2(m)
    ensures x / Pow2(n) == y / Pow2(n)
    decreases n
  {
    if m < n {
      CoarserAgrees(x, y, m, n - 1);
      HalveQuotient(x, Pow2(n - 1));
      HalveQuotient(y, Pow2(n - 1));
    }
  }

  lemma {:induction false} Pow2Grows(m: nat, n: nat)
    requires m < n
    ensures Pow2(m) < Pow2(n)
    decreases n
  {
    if m < n - 1 { Pow2Grows(m, n - 1); }
  }

  /** Two masked bases with the same quotient are the same base. */
  lemma SameQuotientSameBase(x: nat, y: nat, d: nat)
    requires d > 0 && x % d == 0 && y % d == 0 && x / d == y / d
    ensures x == y
  {
    assert x == d * (x / d) && y == d * (y / d);
  }

  // ---- blocks ----

  /** Of two overlapping blocks the shorter prefix contains the other's base, whichever test found it. */
  lemma BroaderContainsBase(a: Block, b: Block)
    requires Masked(a) && Masked(b) && a.prefix <= b.prefix && NetsOverlap(a, b)
    ensures InBlock(a, Base(b))
  {
    if InBlock(b, Base(a)) {
      CoarserAgrees(a.base, b.base, Bits(b.family) - b.prefix, Bits(a.family) - a.prefix);
    }
  }

  /** Overlapping blocks are nested: every address of the longer prefix is in the shorter one. */
  lemma OverlapIsNested(a: Block, b: Block, x: Address)
    requires Masked(a) && Masked(b) && a.prefix <= b.prefix && NetsOverlap(a, b) && InBlock(b, x)
    ensures InBlock(a, x)
  {
    BroaderContainsBase(a, b);
    CoarserAgrees(x.value, b.base, Bits(b.family) - b.prefix, Bits(a.family) - a.prefix);
  }

  lemma SharedMeansOverlap(a: Block, b: Block, x: Address)
    requires Masked(a) && Masked(b) && InBlock(a, x) && InBlock(b, x)
    ensures NetsOverlap(a, b)
  {
    var ha, hb := Bits(a.family) - a.prefix, Bits(b.family) - b.prefix;
    if hb <= ha {
      CoarserAgrees(x.value, b.base, hb, ha);
    } else {
      CoarserAgrees(x.value, a.base, ha, hb);
    }
  }

  /** The base-address test is exact: it holds precisely when some address is in both blocks. */
  lemma OverlapIffShared(a: Block, b: Block)
    requires Masked(a) && Masked(b)
    ensures NetsOverlap(a, b) <==> exists x :: InBlock(a, x) && InBlock(b, x)
  {
    if NetsOverlap(a, b) {
      var x := if InBlock(a, Base(b)) then Base(b) else Base(a);
      assert InBlock(a, x) && InBlock(b, x);
    }
    forall x | InBlock(a, x) && InBlock(b, x) ensures NetsOverlap(a, b) { SharedMeansOverlap(a, b, x); }
  }

  function Reversed(r: Relation): Relation {
    match r
    case Equal => Equal
    case Contains => ContainedBy
    case ContainedBy => Contains
    case Overlap => Overlap
  }

  /** For overlapping blocks the vague relation is never reported, the others mean what they say, and looking from
      the other side exchanges them. */
  lemma RelationIsExact(a: Block, b: Block)
    requires Masked(a) && Masked(b) && NetsOverlap(a, b)
    ensures RelationOf(a, b) != Overlap
    ensures RelationOf(b, a) == Reversed(RelationOf(a, b))
    ensures RelationOf(a, b) == Equal <==> a == b
    ensures RelationOf(a, b) in {Equal, Contains} <==> forall x :: InBlock(b, x) ==> InBlock(a, x)
  {
    if a.prefix <= b.prefix {
      BroaderContainsBase(a, b);
      if a.prefix == b.prefix { SameQuotientSameBase(a.base, b.base, Size(a)); }
      forall x | InBlock(b, x) ensures InBlock(a, x) { OverlapIsNested(a, b, x); }
    } else {
      BroaderContainsBase(b, a);
      StrictlyInside(b, a);
    }
  }

  /** A longer prefix inside a shorter one leaves an address out. */
  lemma StrictlyInside(a: Block, b: Block)
    requires Masked(a) && Masked(b) && a.family == b.family && a.prefix < b.prefix && InBlock(a, Base(b))
    ensures exists x :: InBlock(a, x) && !InBlock(b, x)
  {
    Pow2Grows(Bits(a.family) - b.prefix, Bits(a.family) - a.prefix);
    var low, high := Base(a), Address(a.family, a.base + Size(b));
    NextUp(a.base, Size(a), Size(b));
    assert InBlock(a, low) && InBlock(a, high);
    assert !InBlock(b, low) || !InBlock(b, high);
  }

  lemma NextUp(base: nat, big: nat, small: nat)
    requires 0 < small < big && base % big == 0
    ensures (base + small) / big == base / big && (base + small) / small == base / small + 1
  {
    QuotientIs(base + small, big, base / big, small);
    assert small * (base / small + 1) == small * (base / small) + small;
    QuotientIs(base + small, small, base / small + 1, base % small);
  }

  // ---- collisions ----

  /** `site`, `namespace` and `source` as trimmed text. */
  datatype Route = Route(text: string, block: Option<Block>, namespace: string, site: string, source: string)

  datatype Collision = Collision(
    text: string, with: string, namespace: string, site: string, source: string, relation: Relation, ambiguous: bool)

  predicate WellFormedRoute(r: Route) { r.block.Some? ==> Masked(r.block.value) }

  /** A differing namespace or a differing site, each given on both sides, keeps two routes apart. */
  predicate Separated(a: Route, b: Route) {
    || (a.namespace != "" && b.namespace != "" && a.namespace != b.namespace)
    || (a.site != "" && b.site != "" && a.site != b.site)
  }

  predicate Collides(a: Route, b: Route)
    requires WellFormedRoute(a) && WellFormedRoute(b)
  {
    a.block.Some? && b.block.Some? && NetsOverlap(a.block.value, b.block.value) && !Separated(a, b)
  }

  function Report(a: Route, b: Route): Collision
    requires WellFormedRoute(a) && WellFormedRoute(b) && Collides(a, b)
  {
    Collision(a.text, b.text, b.namespace, b.site, b.source, RelationOf(a.block.value, b.block.value), a.namespace == "")
  }

  /** The existing routes that collide, reported in their order. */
  ghost function Reports(a: Route, existing: seq<Route>): seq<Collision>
    requires WellFormedRoute(a) && forall i :: 0 <= i < |existing| ==> WellFormedRoute(existing[i])
  {
    if existing == [] then []
    else
      var n := |existing| - 1;
      Reports(a, existing[..n]) + if Collides(a, existing[n]) then [Report(a, existing[n])] else []
  }

  method DetectCollisions(candidate: Route, existing: seq<Route>) returns (found: seq<Collision>)
    requires WellFormedRoute(candidate) && forall i :: 0 <= i < |existing| ==> WellFormedRoute(existing[i])
    ensures found == Reports(candidate, existing)
  {
    found := [];
    if candidate.block == None {
      NoBlockNoReports(candidate, existing);
      return;
    }
    var i := 0;
    while i < |existing|
      invariant 0 <= i <= |existing| && found == Reports(candidate, existing[..i])
    {
      assert existing[..i + 1][..i] == existing[..i];
      var route := existing[i];
      if route.block.Some? && NetsOverlap(candidate.block.value, route.block.value) && !Separated(candidate, route) {
        found := found + [Report(candidate, route)];
      }
      i := i + 1;
    }
    assert existing[..|existing|] == existing;
  }

  lemma {:induction false} NoBlockNoReports(a: Route, existing: seq<Route>)
    requires WellFormedRoute(a) && a.block == None && forall i :: 0 <= i < |existing| ==> WellFormedRoute(existing[i])
    ensures Reports(a, existing) == []
  {
    if existing != [] { NoBlockNoReports(a, existing[..|existing| - 1]); }
  }

  /** Collision is symmetric, and the two reports say the same thing from the two sides. */
  lemma CollisionIsSymmetric(a: Route, b: Route)
    requires WellFormedRoute(a) && WellFormedRoute(b)
    ensures Collides(a, b) <==> Collides(b, a)
    ensures Collides(a, b) ==> Report(b, a).relation == Reversed(Report(a, b).relation)
    ensures Collides(a, b) ==> Report(a, b).relation != Overlap
  {
    if Collides(a, b) { RelationIsExact(a.block.value, b.block.value); }
  }

  /** Reported are exactly the colliding routes: those not separated that share an address with the candidate. */
  lemma {:induction false} ReportedIff(a: Route, existing: seq<Route>, c: Collision)
    requires WellFormedRoute(a) && forall i :: 0 <= i < |existing| ==> WellFormedRoute(existing[i])
    ensures c in Reports(a, existing) <==>
              exists i :: 0 <= i < |existing| && Collides(a, existing[i]) && Report(a, existing[i]) == c
  {
    if existing != [] {
      var n := |existing| - 1;
      ReportedIff(a, existing[..n], c);
      assert forall i :: 0 <= i < n ==> existing[..n][i] == existing[i];
    }
  }
}
