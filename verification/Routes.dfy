/** Which connector fronts a destination (connector/route.go, the resolvers): the longest matching route wins, ties go
    to the smallest id, and an address covered equally from two namespaces is refused unless one was named. */
module Routes {
  import opened Text
  import opened Cidr

  /** `cidrs` are the parsed blocks, None for a text that is not one. */
  datatype Connector = Connector(id: string, namespace: string, domains: seq<string>, cidrs: seq<Option<MaskedBlock>>)

  // ---- names ----

  function WithoutTrailingDot(s: string): string {
    if s != "" && s[|s| - 1] == '.' then s[..|s| - 1] else s
  }

  function Normal(s: string): string { WithoutTrailingDot(Lower(TrimSpace(s))) }

  predicate EndsWith(s: string, t: string) { |t| <= |s| && s[|s| - |t|..] == t }

  function CountDots(s: string): nat {
    if s == "" then 0 else CountDots(s[1..]) + if s[0] == '.' then 1 else 0
  }

  function LabelCount(s: string): nat { if s == "" then 0 else CountDots(s) + 1 }

  predicate IsWildcard(domain: string) { "*." <= Normal(domain) }

  /** The name a route domain is about, without the wildcard. */
  function BaseName(domain: string): string { if IsWildcard(domain) then Normal(domain)[2..] else Normal(domain) }

  /** How specifically a route domain fronts a normal host, if it does: a wildcard fronts strict subdomains only. */
  function DomainMatch(host: string, domain: string): Option<nat> {
    var base := BaseName(domain);
    if base == "" then None
    else if (!IsWildcard(domain) && host == base) || EndsWith(host, "." + base) then Some(LabelCount(base))
    else None
  }

  // ---- covers ----

  datatype Query = ByName(host: string) | ByAddress(address: Address, namespace: string)

  /** One route that covers the destination: how specific it is, whose it is, and in which namespace. */
  datatype Cover = Cover(len: nat, id: string, ns: string)

  function NameFit(host: string): string -> Option<nat> { domain => DomainMatch(host, domain) }

  function AddressFit(address: Address): Option<MaskedBlock> -> Option<nat> {
    (block: Option<MaskedBlock>) => if block.Some? && InBlock(block.value, address) then Some(block.value.prefix) else None
  }

  /** The covers among some routes of one connector, in order. */
  function CoversFrom<R>(fit: R -> Option<nat>, routes: seq<R>, id: string, ns: string): seq<Cover> {
    if routes == [] then []
    else
      var front, n := CoversFrom(fit, routes[..|routes| - 1], id, ns), fit(routes[|routes| - 1]);
      if n.Some? then front + [Cover(n.value, id, ns)] else front
  }

  /** Names are global; an address is matched within the named namespace, if one was named. */
  predicate Eligible(q: Query, c: Connector) { q.ByName? || q.namespace == "" || c.namespace == q.namespace }

  function Scope(q: Query, c: Connector): string { if q.ByName? then "" else c.namespace }

  function CoversOfOne(q: Query, c: Connector): seq<Cover> {
    if !Eligible(q, c) then []
    else if q.ByName? then CoversFrom(NameFit(q.host), c.domains, c.id, Scope(q, c))
    else CoversFrom(AddressFit(q.address), c.cidrs, c.id, Scope(q, c))
  }

  function Covers(q: Query, cs: seq<Connector>): seq<Cover> {
    if cs == [] then [] else Covers(q, cs[..|cs| - 1]) + CoversOfOne(q, cs[|cs| - 1])
  }

  // ---- what the answer should be ----

  predicate Less(a: string, b: string) { CompareText(a, b) < 0 }

  lemma LessIsTotal(a: string, b: string)
    ensures Less(a, b) || a == b || Less(b, a)
    ensures !(Less(a, b) && Less(b, a)) && !Less(a, a)
    ensures b != "" ==> Less("", b)
    ensures !Less(a, "")
  {
    CompareTextAntisymmetric(a, b);
  }

  lemma NotLessTransitive(a: string, b: string, c: string)
    requires !Less(b, a) && !Less(c, b)
    ensures !Less(c, a)
  {
    CompareTextAntisymmetric(a, b);
    CompareTextAntisymmetric(b, c);
    CompareTextTransitive(a, b, c);
    CompareTextAntisymmetric(a, c);
  }

  /** Among the longest matches. */
  ghost predicate Top(covers: set<Cover>, c: Cover) {
    c in covers && forall d :: d in covers ==> d.len <= c.len
  }

  ghost predicate SmallestTop(covers: set<Cover>, c: Cover) {
    Top(covers, c) && forall d :: Top(covers, d) ==> d.ns == c.ns && !Less(d.id, c.id)
  }

  ghost predicate Torn(covers: set<Cover>) {
    exists c, d :: Top(covers, c) && Top(covers, d) && c.ns != d.ns
  }

  /** The smallest id among the longest matches, if these agree on the namespace; otherwise nothing. Stated on the
      set of covers, so no order of the list enters. */
  ghost predicate IsAnswer(covers: set<Cover>, r: Option<string>) {
    match r
    case Some(id) => exists c :: SmallestTop(covers, c) && c.id == id
    case None => covers == {} || Torn(covers)
  }

  lemma AnswerIsUnique(covers: set<Cover>, r: Option<string>, s: Option<string>)
    requires IsAnswer(covers, r) && IsAnswer(covers, s)
    ensures r == s
  {
    if r.Some? && s.Some? {
      var c :| SmallestTop(covers, c) && c.id == r.value;
      var d :| SmallestTop(covers, d) && d.id == s.value;
      LessIsTotal(c.id, d.id);
    }
  }

  function AsSet(covers: seq<Cover>): set<Cover> { set c | c in covers }

  // ---- the scan for the best ----

  datatype Best = Best(len: int, id: string, ns: string, ambiguous: bool)

  const NOTHING: Best := Best(-1, "", "", false)

  function Consider(b: Best, c: Cover): Best {
    if c.len > b.len then Best(c.len, c.id, c.ns, false)
    else if c.len < b.len then b
    else if c.ns != b.ns then b.(ambiguous := true)
    else if b.id == "" || Less(c.id, b.id) then b.(id := c.id)
    else b
  }

  function Scan(covers: seq<Cover>): Best {
    if covers == [] then NOTHING else Consider(Scan(covers[..|covers| - 1]), covers[|covers| - 1])
  }

  function AnswerOf(b: Best): Option<string> { if b.ambiguous || b.len < 0 then None else Some(b.id) }

  lemma ScanOn(covers: seq<Cover>, c: Cover)
    ensures Scan(covers + [c]) == Consider(Scan(covers), c)
  {
    assert (covers + [c])[..|covers|] == covers;
  }

  /** The longest covers seen, in order. */
  ghost function Tops(covers: seq<Cover>): seq<Cover> {
    if covers == [] then []
    else
      var front, last := covers[..|covers| - 1], covers[|covers| - 1];
      if last.len > Scan(front).len then [last]
      else if last.len == Scan(front).len then Tops(front) + [last]
      else Tops(front)
  }

  lemma {:induction false} TopsAreTop(covers: seq<Cover>)
    requires covers != []
    ensures Tops(covers) != [] && Scan(covers).len >= 0
    ensures forall c :: c in covers ==> c.len <= Scan(covers).len
    ensures forall c :: c in Tops(covers) <==> c in covers && c.len == Scan(covers).len
  {
    var front, last := covers[..|covers| - 1], covers[|covers| - 1];
    assert covers == front + [last];
    if front != [] { TopsAreTop(front); }
  }

  lemma TopsAreExactlyTop(covers: seq<Cover>, c: Cover)
    requires covers != []
    ensures c in Tops(covers) <==> Top(AsSet(covers), c)
  {
    TopsAreTop(covers);
    assert Tops(covers)[0] in Tops(covers) && Tops(covers)[0] in AsSet(covers);
  }

  /** Which id the scan settles on among equally long covers of one namespace. */
  ghost function Pick(tops: seq<Cover>): string
    requires tops != []
  {
    var last := tops[|tops| - 1];
    if |tops| == 1 then last.id
    else
      var best := Pick(tops[..|tops| - 1]);
      if best == "" || Less(last.id, best) then last.id else best
  }

  ghost predicate OneNamespace(tops: seq<Cover>) {
    forall i :: 0 <= i < |tops| ==> tops[i].ns == tops[0].ns
  }

  lemma {:induction false} ScanIsPick(covers: seq<Cover>)
    requires covers != []
    ensures Tops(covers) != [] && Scan(covers).ns == Tops(covers)[0].ns
    ensures Scan(covers).ambiguous <==> !OneNamespace(Tops(covers))
    ensures !Scan(covers).ambiguous ==> Scan(covers).id == Pick(Tops(covers))
  {
    var front, last := covers[..|covers| - 1], covers[|covers| - 1];
    if front != [] {
      ScanIsPick(front);
      TopsAreTop(front);
      if last.len == Scan(front).len { OneMoreTop(Tops(front), last); }
    }
  }

  lemma OneMoreTop(before: seq<Cover>, last: Cover)
    requires before != []
    ensures OneNamespace(before + [last]) <==> OneNamespace(before) && last.ns == before[0].ns
    ensures Pick(before + [last]) == if Pick(before) == "" || Less(last.id, Pick(before)) then last.id else Pick(before)
  {
    var tops := before + [last];
    assert tops[..|tops| - 1] == before && tops[|before|] == last;
    assert forall i :: 0 <= i < |before| ==> tops[i] == before[i];
  }

  ghost predicate HasEmptyId(tops: seq<Cover>) { exists i :: 0 <= i < |tops| && tops[i].id == "" }

  /** The pick is one of the ids; it is empty exactly when the last one is; and it is the smallest if none is empty. */
  lemma {:induction false} PickFacts(tops: seq<Cover>)
    requires tops != []
    ensures exists i :: 0 <= i < |tops| && tops[i].id == Pick(tops)
    ensures Pick(tops) == "" <==> tops[|tops| - 1].id == ""
    ensures !HasEmptyId(tops) ==> forall i :: 0 <= i < |tops| ==> !Less(tops[i].id, Pick(tops))
  {
    var front, last := tops[..|tops| - 1], tops[|tops| - 1];
    if front != [] {
      PickFacts(front);
      assert forall i :: 0 <= i < |front| ==> front[i] == tops[i];
      LessIsTotal(last.id, Pick(front));
      forall i | 0 <= i < |tops| && !HasEmptyId(tops) ensures !Less(tops[i].id, Pick(tops)) {
        LessIsTotal(tops[i].id, Pick(tops));
        if i < |front| {
          assert !HasEmptyId(front);
          NotLessTransitive(Pick(tops), Pick(front), tops[i].id);
        }
      }
    } else {
      LessIsTotal(last.id, last.id);
    }
  }

  /** Exactly when the pick is the smallest: no id is empty, or the last one is. */
  lemma PickIsSmallestIff(tops: seq<Cover>)
    requires tops != []
    ensures (forall i :: 0 <= i < |tops| ==> !Less(tops[i].id, Pick(tops)))
       <==> !HasEmptyId(tops) || tops[|tops| - 1].id == ""
  {
    PickFacts(tops);
    forall i | 0 <= i < |tops| ensures Pick(tops) == "" ==> !Less(tops[i].id, Pick(tops)) {
      LessIsTotal(tops[i].id, Pick(tops));
    }
    if HasEmptyId(tops) {
      var i :| 0 <= i < |tops| && tops[i].id == "";
      LessIsTotal(tops[i].id, Pick(tops));
    }
  }

  /** No longest cover has an empty id, or the last one has. */
  ghost predicate Orderly(covers: seq<Cover>) {
    covers == [] || !OneNamespace(Tops(covers)) || !HasEmptyId(Tops(covers)) || Tops(covers)[|Tops(covers)| - 1].id == ""
  }

  lemma TornIff(covers: seq<Cover>)
    requires covers != []
    ensures Tops(covers) != [] && (Torn(AsSet(covers)) <==> !OneNamespace(Tops(covers)))
  {
    TopsAreTop(covers);
    var tops := Tops(covers);
    forall c ensures c in tops <==> Top(AsSet(covers), c) { TopsAreExactlyTop(covers, c); }
    if !OneNamespace(tops) {
      var i :| 0 <= i < |tops| && tops[i].ns != tops[0].ns;
      assert tops[i] in tops && tops[0] in tops;
    }
  }

  /** The scan gives the answer exactly on orderly covers. */
  lemma ScanAnswersIff(covers: seq<Cover>)
    ensures IsAnswer(AsSet(covers), AnswerOf(Scan(covers))) <==> Orderly(covers)
  {
    if covers != [] {
      var tops := Tops(covers);
      ScanIsPick(covers);
      TopsAreTop(covers);
      TornIff(covers);
      if OneNamespace(tops) {
        forall c ensures c in tops <==> Top(AsSet(covers), c) { TopsAreExactlyTop(covers, c); }
        PickFacts(tops);
        PickIsSmallestIff(tops);
        PickedIsSmallestTop(AsSet(covers), tops);
      }
    }
  }

  lemma PickedIsSmallestTop(covers: set<Cover>, tops: seq<Cover>)
    requires tops != [] && OneNamespace(tops) && forall c :: c in tops <==> Top(covers, c)
    ensures (exists c :: SmallestTop(covers, c) && c.id == Pick(tops))
       <==> (forall i :: 0 <= i < |tops| ==> !Less(tops[i].id, Pick(tops)))
  {
    PickFacts(tops);
    if c :| SmallestTop(covers, c) && c.id == Pick(tops) {
      forall i | 0 <= i < |tops| ensures !Less(tops[i].id, Pick(tops)) { assert tops[i] in tops; }
    }
    if forall i :: 0 <= i < |tops| ==> !Less(tops[i].id, Pick(tops)) {
      var k :| 0 <= k < |tops| && tops[k].id == Pick(tops);
      assert tops[k] in tops && tops[0] in tops;
      forall d | Top(covers, d) ensures d.ns == tops[k].ns && !Less(d.id, tops[k].id) { assert d in tops; }
      assert SmallestTop(covers, tops[k]);
    }
  }

  // ---- no order of the connectors matters ----

  lemma {:induction false} CoverIsSomeones(q: Query, cs: seq<Connector>, c: Cover)
    ensures c in Covers(q, cs) <==> exists x :: x in cs && c in CoversOfOne(q, x)
  {
    if cs != [] {
      var front, last := cs[..|cs| - 1], cs[|cs| - 1];
      assert cs == front + [last];
      CoverIsSomeones(q, front, c);
    }
  }

  lemma {:induction false} CoversFromOwner<R>(fit: R -> Option<nat>, routes: seq<R>, id: string, ns: string, c: Cover)
    requires c in CoversFrom(fit, routes, id, ns)
    ensures c.id == id && c.ns == ns
  {
    var front := routes[..|routes| - 1];
    if c in CoversFrom(fit, front, id, ns) { CoversFromOwner(fit, front, id, ns, c); }
  }

  lemma CoverHasOwner(q: Query, x: Connector, c: Cover)
    requires c in CoversOfOne(q, x)
    ensures c.id == x.id && c.ns == Scope(q, x) && Eligible(q, x)
  {
    if q.ByName? {
      CoversFromOwner(NameFit(q.host), x.domains, x.id, Scope(q, x), c);
    } else {
      CoversFromOwner(AddressFit(q.address), x.cidrs, x.id, Scope(q, x), c);
    }
  }

  predicate AllNamed(cs: seq<Connector>) { forall i :: 0 <= i < |cs| ==> cs[i].id != "" }

  lemma NamedIsOrderly(q: Query, cs: seq<Connector>)
    requires AllNamed(cs)
    ensures Orderly(Covers(q, cs))
  {
    var covers := Covers(q, cs);
    if covers != [] {
      TopsAreTop(covers);
      forall i | 0 <= i < |Tops(covers)| ensures Tops(covers)[i].id != "" {
        var c := Tops(covers)[i];
        assert c in Tops(covers);
        CoverIsSomeones(q, cs, c);
        var x :| x in cs && c in CoversOfOne(q, x);
        CoverHasOwner(q, x, c);
      }
    }
  }

  lemma SameMembers(a: seq<Connector>, b: seq<Connector>)
    requires multiset(a) == multiset(b)
    ensures forall x :: x in a <==> x in b
  {
    forall x ensures x in a <==> x in b { assert x in multiset(a) <==> x in multiset(b); }
  }

  /** Every ordering of the connectors gives the same answer: the smallest id among the longest covers. */
  lemma OrderDoesNotMatter(q: Query, a: seq<Connector>, b: seq<Connector>)
    requires AllNamed(a) && multiset(a) == multiset(b)
    ensures AnswerOf(Scan(Covers(q, a))) == AnswerOf(Scan(Covers(q, b)))
    ensures IsAnswer(AsSet(Covers(q, a)), AnswerOf(Scan(Covers(q, a))))
  {
    SameMembers(a, b);
    forall i | 0 <= i < |b| ensures b[i].id != "" { assert b[i] in b && b[i] in a; }
    NamedIsOrderly(q, a);
    NamedIsOrderly(q, b);
    ScanAnswersIff(Covers(q, a));
    ScanAnswersIff(Covers(q, b));
    forall c ensures c in AsSet(Covers(q, a)) <==> c in AsSet(Covers(q, b)) {
      CoverIsSomeones(q, a, c);
      CoverIsSomeones(q, b, c);
    }
    assert AsSet(Covers(q, a)) == AsSet(Covers(q, b));
    AnswerIsUnique(AsSet(Covers(q, a)), AnswerOf(Scan(Covers(q, a))), AnswerOf(Scan(Covers(q, b))));
  }

  lemma CoversOneMore(q: Query, cs: seq<Connector>, c: Connector)
    ensures Covers(q, cs + [c]) == Covers(q, cs) + CoversOfOne(q, c)
  {
    assert (cs + [c])[..|cs|] == cs;
  }

  lemma TwoCovers(q: Query, c: Connector, d: Connector, x: Cover, y: Cover)
    requires CoversOfOne(q, c) == [x] && CoversOfOne(q, d) == [y]
    ensures Scan(Covers(q, [c, d])) == Consider(Consider(NOTHING, x), y)
  {
    CoversOneMore(q, [], c);
    CoversOneMore(q, [c], d);
    assert [] + [c] == [c] && [c] + [d] == [c, d] && [] + [x] == [x];
    ScanOn([], x);
    ScanOn([x], y);
  }

  lemma OneRoute<R>(fit: R -> Option<nat>, route: R, id: string, ns: string)
    requires fit(route).Some?
    ensures CoversFrom(fit, [route], id, ns) == [Cover(fit(route).value, id, ns)]
  {
    assert [route][..0] == [];
  }

  /** A connector that routes every IPv4 address. */
  function Anywhere(id: string): Connector { Connector(id, "", [], [Some(Block(V4, 0, 0))]) }

  lemma AnywhereCovers(id: string)
    ensures CoversOfOne(ByAddress(Address(V4, 0), ""), Anywhere(id)) == [Cover(0, id, "")]
  {
    var a, b: MaskedBlock := Address(V4, 0), Block(V4, 0, 0);
    assert InBlock(b, a);
    OneRoute(AddressFit(a), Some(b), id, "");
  }

  /** With an empty id in the list the order does matter: the same two connectors, two answers. */
  lemma EmptyIdsMakeOrderMatter()
    ensures var q := ByAddress(Address(V4, 0), "");
            && AnswerOf(Scan(Covers(q, [Anywhere(""), Anywhere("a")]))) == Some("a")
            && AnswerOf(Scan(Covers(q, [Anywhere("a"), Anywhere("")]))) == Some("")
  {
    var q := ByAddress(Address(V4, 0), "");
    AnywhereCovers("");
    AnywhereCovers("a");
    TwoCovers(q, Anywhere(""), Anywhere("a"), Cover(0, "", ""), Cover(0, "a", ""));
    TwoCovers(q, Anywhere("a"), Anywhere(""), Cover(0, "a", ""), Cover(0, "", ""));
  }
}
