/** The candidate list of connector/route.go: every connector that covers a destination, the longest match first, ids
    in order among equals. Its head is the single resolver's answer. Below it the resolvers as the loops they are. */
module RouteCandidates {
  import opened Text
  import opened Cidr
  import opened Routes

  // ---- one match per connector ----

  function Longest(covers: seq<Cover>): int {
    if covers == [] then -1
    else
      var front, last := Longest(covers[..|covers| - 1]), covers[|covers| - 1].len;
      if last > front then last else front
  }

  lemma {:induction false} LongestIsMax(covers: seq<Cover>)
    ensures Longest(covers) >= 0 <==> covers != []
    ensures forall c :: c in covers ==> c.len <= Longest(covers)
    ensures covers != [] ==> exists c :: c in covers && c.len == Longest(covers)
  {
    if covers != [] {
      var front, last := covers[..|covers| - 1], covers[|covers| - 1];
      assert covers == front + [last];
      LongestIsMax(front);
    }
  }

  function MatchOf(q: Query, c: Connector): seq<Cover>
  {
    var best := Longest(CoversOfOne(q, c));
    if best >= 0 then [Cover(best, c.id, Scope(q, c))] else []
  }

  function Matches(q: Query, cs: seq<Connector>): seq<Cover>
  {
    if cs == [] then [] else Matches(q, cs[..|cs| - 1]) + MatchOf(q, cs[|cs| - 1])
  }

  lemma {:induction false} MatchIsSomeones(q: Query, cs: seq<Connector>, m: Cover)
    ensures m in Matches(q, cs) <==> exists x :: x in cs && m in MatchOf(q, x)
  {
    if cs != [] {
      var front, last := cs[..|cs| - 1], cs[|cs| - 1];
      assert cs == front + [last];
      MatchIsSomeones(q, front, m);
    }
  }

  /** A match is a cover. */
  lemma MatchIsCover(q: Query, cs: seq<Connector>, m: Cover)
    requires m in Matches(q, cs)
    ensures m in Covers(q, cs)
  {
    MatchIsSomeones(q, cs, m);
    var x :| x in cs && m in MatchOf(q, x);
    LongestIsMax(CoversOfOne(q, x));
    var c :| c in CoversOfOne(q, x) && c.len == m.len;
    CoverHasOwner(q, x, c);
    assert c == m;
    CoverIsSomeones(q, cs, m);
  }

  /** Behind every cover there is a match of the same connector at least as long. */
  lemma CoverHasMatch(q: Query, cs: seq<Connector>, c: Cover) returns (m: Cover)
    requires c in Covers(q, cs)
    ensures m in Matches(q, cs) && m.len >= c.len && m.id == c.id && m.ns == c.ns
  {
    CoverIsSomeones(q, cs, c);
    var x :| x in cs && c in CoversOfOne(q, x);
    LongestIsMax(CoversOfOne(q, x));
    CoverHasOwner(q, x, c);
    m := MatchOf(q, x)[0];
    MatchIsSomeones(q, cs, m);
  }

  /** The longest matches are the longest covers. */
  lemma SameTops(q: Query, cs: seq<Connector>, c: Cover)
    ensures Top(AsSet(Matches(q, cs)), c) <==> Top(AsSet(Covers(q, cs)), c)
  {
    var matches, covers := AsSet(Matches(q, cs)), AsSet(Covers(q, cs));
    if Top(matches, c) {
      MatchIsCover(q, cs, c);
      forall d | d in covers ensures d.len <= c.len { var m := CoverHasMatch(q, cs, d); assert m in matches; }
    }
    if Top(covers, c) {
      var m := CoverHasMatch(q, cs, c);
      MatchIsCover(q, cs, m);
      assert m in covers && m == c;
      forall d | d in matches ensures d.len <= c.len { MatchIsCover(q, cs, d); assert d in covers; }
    }
  }

  lemma SameAnswers(q: Query, cs: seq<Connector>, r: Option<string>)
    ensures IsAnswer(AsSet(Matches(q, cs)), r) <==> IsAnswer(AsSet(Covers(q, cs)), r)
  {
    var matches, covers := AsSet(Matches(q, cs)), AsSet(Covers(q, cs));
    forall c ensures Top(matches, c) <==> Top(covers, c) { SameTops(q, cs, c); }
    assert forall c :: SmallestTop(matches, c) <==> SmallestTop(covers, c);
    assert matches == {} <==> covers == {} by {
      if c :| c in covers { var m := CoverHasMatch(q, cs, c); assert m in matches; }
      if m :| m in matches { MatchIsCover(q, cs, m); assert m in covers; }
    }
  }

  // ---- the stable sort ----

  predicate Before(a: Cover, b: Cover) { a.len > b.len || (a.len == b.len && Less(a.id, b.id)) }

  predicate InOrder(s: seq<Cover>) { forall i, j :: 0 <= i < j < |s| ==> !Before(s[j], s[i]) }

  lemma NotBeforeTransitive(a: Cover, b: Cover, c: Cover)
    requires !Before(b, a) && !Before(c, b)
    ensures !Before(c, a)
  {
    if a.len == b.len == c.len { NotLessTransitive(a.id, b.id, c.id); }
  }

  /** Put x behind everything it does not come before. */
  function Insert(s: seq<Cover>, x: Cover): (r: seq<Cover>)
    ensures multiset(r) == multiset(s) + multiset{x}
    ensures r != []
  {
    if s == [] || !Before(x, s[|s| - 1]) then s + [x]
    else
      assert s == s[..|s| - 1] + [s[|s| - 1]];
      Insert(s[..|s| - 1], x) + [s[|s| - 1]]
  }

  function Sorted(s: seq<Cover>): (r: seq<Cover>)
    ensures multiset(r) == multiset(s)
  {
    if s == [] then []
    else
      assert s == s[..|s| - 1] + [s[|s| - 1]];
      Insert(Sorted(s[..|s| - 1]), s[|s| - 1])
  }

  lemma {:induction false} InsertKeepsOrder(s: seq<Cover>, x: Cover)
    requires InOrder(s)
    ensures InOrder(Insert(s, x))
  {
    if s != [] {
      var front, last := s[..|s| - 1], s[|s| - 1];
      if Before(x, last) {
        InsertKeepsOrder(front, x);
        var rest := Insert(front, x);
        forall i | 0 <= i < |rest| ensures !Before(last, rest[i]) {
          assert rest[i] in multiset(rest) && (rest[i] == x || rest[i] in multiset(front));
          if rest[i] != x {
            var k :| 0 <= k < |front| && front[k] == rest[i];
            assert s[k] == front[k];
          } else {
            LessIsTotal(x.id, last.id);
          }
        }
      } else {
        forall i | 0 <= i < |s| ensures !Before(x, s[i]) {
          if i < |s| - 1 { NotBeforeTransitive(s[i], last, x); }
        }
      }
    }
  }

  lemma {:induction false} SortedInOrder(s: seq<Cover>)
    ensures InOrder(Sorted(s))
  {
    if s != [] {
      SortedInOrder(s[..|s| - 1]);
      InsertKeepsOrder(Sorted(s[..|s| - 1]), s[|s| - 1]);
    }
  }

  // ---- the candidate list ----

  /** Equally long matches from different namespaces at the front of a sorted list. */
  predicate TornFront(s: seq<Cover>) {
    exists i :: 0 <= i < |s| && s[i].len == s[0].len && s[i].ns != s[0].ns
  }

  function Ids(s: seq<Cover>): seq<string> { seq(|s|, i requires 0 <= i < |s| => s[i].id) }

  function Candidates(q: Query, cs: seq<Connector>): seq<string>
  {
    var sorted := Sorted(Matches(q, cs));
    if q.ByAddress? && q.namespace == "" && TornFront(sorted) then [] else Ids(sorted)
  }

  function Head(ids: seq<string>): Option<string> { if ids == [] then None else Some(ids[0]) }

  /** Where the namespaces cannot differ, nothing is torn. */
  lemma ScopedIsNotTorn(q: Query, cs: seq<Connector>, m: Cover, n: Cover)
    requires m in Matches(q, cs) && n in Matches(q, cs) && (q.ByName? || q.namespace != "")
    ensures m.ns == n.ns
  {
    forall c | c in Matches(q, cs) ensures c.ns == if q.ByName? then "" else q.namespace {
      MatchIsCover(q, cs, c);
      CoverIsSomeones(q, cs, c);
      var x :| x in cs && c in CoversOfOne(q, x);
      CoverHasOwner(q, x, c);
    }
  }

  /** The front of a sorted list, as the answer about its members. */
  lemma FrontAnswers(s: seq<Cover>)
    requires InOrder(s) && s != []
    ensures Top(AsSet(s), s[0])
    ensures TornFront(s) <==> Torn(AsSet(s))
    ensures !TornFront(s) ==> SmallestTop(AsSet(s), s[0])
  {
    assert s[0] in AsSet(s);
    forall c | c in AsSet(s) ensures c.len <= s[0].len && (c.len == s[0].len ==> !Less(c.id, s[0].id)) {
      var i :| 0 <= i < |s| && s[i] == c;
      LessIsTotal(c.id, c.id);
    }
    if TornFront(s) {
      var i :| 0 <= i < |s| && s[i].len == s[0].len && s[i].ns != s[0].ns;
      assert s[i] in AsSet(s) && Top(AsSet(s), s[i]);
    }
    if Torn(AsSet(s)) {
      var c, d :| Top(AsSet(s), c) && Top(AsSet(s), d) && c.ns != d.ns;
      var i :| 0 <= i < |s| && s[i] == c;
      var j :| 0 <= j < |s| && s[j] == d;
      assert s[i].len == s[0].len && s[j].len == s[0].len;
    }
    if !TornFront(s) {
      forall d | Top(AsSet(s), d) ensures d.ns == s[0].ns {
        var j :| 0 <= j < |s| && s[j] == d;
        assert s[j].len == s[0].len;
      }
    }
  }

  lemma SortedMembers(s: seq<Cover>)
    ensures forall c :: c in Sorted(s) <==> c in s
    ensures AsSet(Sorted(s)) == AsSet(s)
  {
    forall c ensures c in Sorted(s) <==> c in s { assert c in multiset(Sorted(s)) <==> c in multiset(s); }
  }

  /** What is left of a sorted list when a torn front is refused. */
  lemma HeadOfSorted(sorted: seq<Cover>, refuse: bool)
    requires InOrder(sorted) && (!refuse ==> !TornFront(sorted))
    ensures IsAnswer(AsSet(sorted), Head(if refuse && TornFront(sorted) then [] else Ids(sorted)))
  {
    if sorted != [] { FrontAnswers(sorted); } else { assert AsSet(sorted) == {}; }
  }

  lemma ScopedFront(q: Query, cs: seq<Connector>)
    requires (q.ByName? || q.namespace != "")
    ensures !TornFront(Sorted(Matches(q, cs)))
  {
    var sorted := Sorted(Matches(q, cs));
    SortedMembers(Matches(q, cs));
    forall i | 0 <= i < |sorted| ensures sorted[i].ns == sorted[0].ns {
      assert sorted[i] in sorted && sorted[0] in sorted;
      ScopedIsNotTorn(q, cs, sorted[i], sorted[0]);
    }
  }

  /** The head of the list is the answer, whatever the ids. */
  lemma HeadIsAnswer(q: Query, cs: seq<Connector>)
    ensures IsAnswer(AsSet(Covers(q, cs)), Head(Candidates(q, cs)))
  {
    var matches := Matches(q, cs);
    SortedInOrder(matches);
    SortedMembers(matches);
    if q.ByName? || q.namespace != "" { ScopedFront(q, cs); }
    HeadOfSorted(Sorted(matches), q.ByAddress? && q.namespace == "");
    SameAnswers(q, cs, Head(Candidates(q, cs)));
  }

  /** The single resolver and the list agree exactly on orderly covers; in particular whenever every id is given. */
  lemma ResolversAgreeIff(q: Query, cs: seq<Connector>)
    ensures AnswerOf(Scan(Covers(q, cs))) == Head(Candidates(q, cs)) <==> Orderly(Covers(q, cs))
    ensures AllNamed(cs) ==> AnswerOf(Scan(Covers(q, cs))) == Head(Candidates(q, cs))
  {
    HeadIsAnswer(q, cs);
    ScanAnswersIff(Covers(q, cs));
    if Orderly(Covers(q, cs)) {
      AnswerIsUnique(AsSet(Covers(q, cs)), AnswerOf(Scan(Covers(q, cs))), Head(Candidates(q, cs)));
    }
    if AllNamed(cs) { NamedIsOrderly(q, cs); }
  }

  // ---- the list does not depend on the order either ----

  ghost predicate DistinctIds(s: seq<Cover>) {
    forall i, j :: 0 <= i < j < |s| ==> s[i].id != s[j].id
  }

  lemma FirstIsLeast(s: seq<Cover>, t: seq<Cover>)
    requires InOrder(s) && InOrder(t) && DistinctIds(s) && s != [] && t != []
    requires forall c :: c in s <==> c in t
    ensures s[0] == t[0]
  {
    assert s[0] in t && t[0] in s;
    var i :| 0 <= i < |s| && s[i] == t[0];
    var j :| 0 <= j < |t| && t[j] == s[0];
    LessIsTotal(s[0].id, t[0].id);
  }

  lemma RestMembers(s: seq<Cover>, c: Cover)
    requires DistinctIds(s) && s != []
    ensures c in s[1..] <==> c in s && c != s[0]
  {
    if c in s && c != s[0] {
      var i :| 0 <= i < |s| && s[i] == c;
      assert s[1..][i - 1] == c;
    }
  }

  lemma SomeMember(s: seq<Cover>)
    ensures s == [] <==> forall c :: c !in s
  {
    if s != [] { assert s[0] in s; }
  }

  /** A sorted list of distinct ids is determined by its members. */
  lemma {:induction false} SortedIsUnique(s: seq<Cover>, t: seq<Cover>)
    requires InOrder(s) && InOrder(t) && DistinctIds(s) && DistinctIds(t)
    requires forall c :: c in s <==> c in t
    ensures s == t
  {
    SomeMember(s);
    SomeMember(t);
    if s != [] {
      assert s[0] in t;
      FirstIsLeast(s, t);
      forall c ensures c in s[1..] <==> c in t[1..] { RestMembers(s, c); RestMembers(t, c); }
      SortedIsUnique(s[1..], t[1..]);
      assert s == [s[0]] + s[1..] && t == [t[0]] + t[1..];
    }
  }

  ghost predicate DistinctConnectors(cs: seq<Connector>) {
    forall i, j :: 0 <= i < j < |cs| ==> cs[i].id != cs[j].id
  }

  lemma {:induction false} MatchesOfDistinct(q: Query, cs: seq<Connector>)
    requires DistinctConnectors(cs)
    ensures DistinctIds(Matches(q, cs))
    ensures forall m :: m in Matches(q, cs) ==> exists i :: 0 <= i < |cs| && cs[i].id == m.id
  {
    if cs != [] {
      var n := |cs| - 1;
      MatchesOfDistinct(q, cs[..n]);
      var front := Matches(q, cs[..n]);
      forall i | 0 <= i < |front| ensures front[i].id != cs[n].id {
        assert front[i] in front;
        var k :| 0 <= k < |cs[..n]| && cs[..n][k].id == front[i].id;
        assert cs[k].id == front[i].id;
      }
      forall m | m in front ensures exists i :: 0 <= i < |cs| && cs[i].id == m.id {
        var k :| 0 <= k < |cs[..n]| && cs[..n][k].id == m.id;
        assert cs[k].id == m.id;
      }
    }
  }

  /** For connectors with distinct ids the whole candidate list is the same in every ordering. */
  lemma CandidatesOrderFree(q: Query, a: seq<Connector>, b: seq<Connector>)
    requires DistinctConnectors(a) && DistinctConnectors(b)
    requires forall x :: x in a <==> x in b
    ensures Candidates(q, a) == Candidates(q, b)
  {
    SortedOfDistinct(q, a);
    SortedOfDistinct(q, b);
    forall c ensures c in Sorted(Matches(q, a)) <==> c in Sorted(Matches(q, b)) {
      MatchIsSomeones(q, a, c);
      MatchIsSomeones(q, b, c);
    }
    SortedIsUnique(Sorted(Matches(q, a)), Sorted(Matches(q, b)));
  }

  lemma SortedOfDistinct(q: Query, cs: seq<Connector>)
    requires DistinctConnectors(cs)
    ensures InOrder(Sorted(Matches(q, cs))) && DistinctIds(Sorted(Matches(q, cs)))
    ensures forall c :: c in Sorted(Matches(q, cs)) <==> c in Matches(q, cs)
  {
    SortedInOrder(Matches(q, cs));
    MatchesOfDistinct(q, cs);
    DistinctSurvivesSorting(Matches(q, cs));
    SortedMembers(Matches(q, cs));
  }

  lemma DistinctSurvivesSorting(s: seq<Cover>)
    requires DistinctIds(s)
    ensures DistinctIds(Sorted(s))
  {
    var r := Sorted(s);
    forall i, j | 0 <= i < j < |r| ensures r[i].id != r[j].id {
      assert r[i] in multiset(s) && r[j] in multiset(s);
      var k :| 0 <= k < |s| && s[k] == r[i];
      var l :| 0 <= l < |s| && s[l] == r[j];
      if k == l {
        TwiceInBag(r, i, j);
        OnceInBag(s, k);
      }
    }
  }

  lemma TwiceInBag(r: seq<Cover>, i: nat, j: nat)
    requires i < j < |r| && r[i] == r[j]
    ensures multiset(r)[r[i]] >= 2
  {
    assert r == r[..i] + [r[i]] + r[i + 1..j] + [r[j]] + r[j + 1..];
  }

  lemma OnceInBag(s: seq<Cover>, k: nat)
    requires DistinctIds(s) && k < |s|
    ensures multiset(s)[s[k]] == 1
  {
    assert s == s[..k] + [s[k]] + s[k + 1..];
    assert s[k] !in s[..k] && s[k] !in s[k + 1..];
    assert multiset(s[..k])[s[k]] == 0 && multiset(s[k + 1..])[s[k]] == 0;
  }

  // ---- the resolvers as loops ----

  lemma CoversFromOn<R>(fit: R -> Option<nat>, routes: seq<R>, k: nat, id: string, ns: string)
    requires k < |routes|
    ensures var front := CoversFrom(fit, routes[..k], id, ns);
            CoversFrom(fit, routes[..k + 1], id, ns) ==
              if fit(routes[k]).Some? then front + [Cover(fit(routes[k]).value, id, ns)] else front
  {
    assert routes[..k + 1][..k] == routes[..k];
  }

  /** One more route, scanned. */
  lemma ScanStep<R>(before: seq<Cover>, fit: R -> Option<nat>, routes: seq<R>, k: nat, id: string, ns: string)
    requires k < |routes|
    ensures var best := Scan(before + CoversFrom(fit, routes[..k], id, ns));
            Scan(before + CoversFrom(fit, routes[..k + 1], id, ns)) ==
              if fit(routes[k]).Some? then Consider(best, Cover(fit(routes[k]).value, id, ns)) else best
  {
    CoversFromOn(fit, routes, k, id, ns);
    var seen := before + CoversFrom(fit, routes[..k], id, ns);
    if fit(routes[k]).Some? {
      var c := Cover(fit(routes[k]).value, id, ns);
      ScanOn(seen, c);
      assert before + CoversFrom(fit, routes[..k + 1], id, ns) == seen + [c];
    }
  }

  lemma ScanNone<R>(before: seq<Cover>, fit: R -> Option<nat>, routes: seq<R>, id: string, ns: string)
    ensures Scan(before + CoversFrom(fit, routes[..0], id, ns)) == Scan(before)
    ensures routes[..|routes|] == routes
  {
    assert before + CoversFrom(fit, routes[..0], id, ns) == before;
  }

  lemma CoversOn(q: Query, cs: seq<Connector>, i: nat)
    requires i < |cs|
    ensures Covers(q, cs[..i + 1]) == Covers(q, cs[..i]) + CoversOfOne(q, cs[i])
  {
    assert cs[..i + 1][..i] == cs[..i];
  }

  /** One connector's routes, against the best name so far. */
  method ScanNames(fit: string -> Option<nat>, domains: seq<string>, id: string, startLen: int, startId: string,
                   ghost before: seq<Cover>)
    returns (bestLen: int, bestId: string)
    requires Scan(before) == Best(startLen, startId, "", false)
    ensures Scan(before + CoversFrom(fit, domains, id, "")) == Best(bestLen, bestId, "", false)
  {
    bestLen, bestId := startLen, startId;
    var k := 0;
    ScanNone(before, fit, domains, id, "");
    while k < |domains|
      invariant 0 <= k <= |domains|
      invariant Scan(before + CoversFrom(fit, domains[..k], id, "")) == Best(bestLen, bestId, "", false)
    {
      var n := fit(domains[k]);
      ScanStep(before, fit, domains, k, id, "");
      if n.Some? {
        if n.value > bestLen || (n.value == bestLen && (bestId == "" || Less(id, bestId))) {
          bestLen, bestId := n.value, id;
        }
      }
      k := k + 1;
    }
  }

  method ResolveForHost(text: string, cs: seq<Connector>) returns (r: Option<string>)
    ensures r == if Normal(text) == "" then None else AnswerOf(Scan(Covers(ByName(Normal(text)), cs)))
  {
    var host := Normal(text);
    if host == "" {
      return None;
    }
    ghost var q := ByName(host);
    var bestLen: int, bestId := -1, "";
    var i := 0;
    while i < |cs|
      invariant 0 <= i <= |cs| && Scan(Covers(q, cs[..i])) == Best(bestLen, bestId, "", false)
    {
      CoversOn(q, cs, i);
      bestLen, bestId := ScanNames(NameFit(host), cs[i].domains, cs[i].id, bestLen, bestId, Covers(q, cs[..i]));
      i := i + 1;
    }
    assert cs[..|cs|] == cs;
    r := if bestLen >= 0 then Some(bestId) else None;
  }

  method ResolveForIP(address: Option<Address>, namespace: string, cs: seq<Connector>) returns (r: Option<string>)
    ensures r == if address == None then None else AnswerOf(Scan(Covers(ByAddress(address.value, namespace), cs)))
  {
    if address == None {
      return None;
    }
    ghost var q := ByAddress(address.value, namespace);
    var best := NOTHING;
    var i := 0;
    while i < |cs|
      invariant 0 <= i <= |cs| && Scan(Covers(q, cs[..i])) == best
    {
      var c := cs[i];
      CoversOn(q, cs, i);
      if namespace != "" && c.namespace != namespace {
        assert Covers(q, cs[..i]) + [] == Covers(q, cs[..i]);
      } else {
        best := ScanBlocks(AddressFit(address.value), c.cidrs, c.id, c.namespace, best, Covers(q, cs[..i]));
      }
      i := i + 1;
    }
    assert cs[..|cs|] == cs;
    r := if best.ambiguous || best.len < 0 then None else Some(best.id);
  }

  /** One connector's blocks, against the best so far. */
  method ScanBlocks(fit: Option<MaskedBlock> -> Option<nat>, blocks: seq<Option<MaskedBlock>>, id: string, ns: string,
                    start: Best, ghost before: seq<Cover>)
    returns (best: Best)
    requires Scan(before) == start
    ensures Scan(before + CoversFrom(fit, blocks, id, ns)) == best
  {
    best := start;
    var k := 0;
    ScanNone(before, fit, blocks, id, ns);
    while k < |blocks|
      invariant 0 <= k <= |blocks| && Scan(before + CoversFrom(fit, blocks[..k], id, ns)) == best
    {
      var ones := fit(blocks[k]);
      ScanStep(before, fit, blocks, k, id, ns);
      if ones.Some? {
        if ones.value > best.len {
          best := Best(ones.value, id, ns, false);
        } else if ones.value == best.len {
          if ns != best.ns {
            best := best.(ambiguous := true);
          } else if best.id == "" || Less(id, best.id) {
            best := best.(id := id);
          }
        }
      }
      k := k + 1;
    }
  }

  /** The query a destination stands for: an address if its normal form parses as one. */
  function QueryOf(host: string, address: Option<Address>, namespace: string): Query {
    if address.Some? then ByAddress(address.value, namespace) else ByName(host)
  }

  /** `address` is what the normal host parses to. */
  method ResolveCandidates(text: string, address: Option<Address>, namespace: string, cs: seq<Connector>)
    returns (ids: seq<string>)
    ensures ids == if Normal(text) == "" then [] else Candidates(QueryOf(Normal(text), address, namespace), cs)
  {
    var host := Normal(text);
    if host == "" {
      return [];
    }
    var matches := GatherMatches(host, address, namespace, cs);
    SortedInOrder(matches);
    matches := Sorted(matches);
    if address.Some? && namespace == "" {
      var torn := FindTorn(matches);
      if torn {
        return [];
      }
    }
    ids := Ids(matches);
  }

  method GatherMatches(host: string, address: Option<Address>, namespace: string, cs: seq<Connector>)
    returns (matches: seq<Cover>)
    ensures matches == Matches(QueryOf(host, address, namespace), cs)
  {
    ghost var q := QueryOf(host, address, namespace);
    matches := [];
    var i := 0;
    while i < |cs|
      invariant 0 <= i <= |cs| && matches == Matches(q, cs[..i])
    {
      MatchesOn(q, cs, i);
      var one := MatchOne(host, address, namespace, cs[i]);
      matches := matches + one;
      i := i + 1;
    }
    assert cs[..|cs|] == cs;
  }

  /** The longest match of one connector, if it has any. */
  method MatchOne(host: string, address: Option<Address>, namespace: string, c: Connector) returns (one: seq<Cover>)
    ensures one == MatchOf(QueryOf(host, address, namespace), c)
  {
    one := [];
    if address == None {
      var best := LongestOf(NameFit(host), c.domains, c.id, "");
      if best >= 0 {
        one := [Cover(best, c.id, "")];
      }
    } else if namespace == "" || c.namespace == namespace {
      var best := LongestOf(AddressFit(address.value), c.cidrs, c.id, c.namespace);
      if best >= 0 {
        one := [Cover(best, c.id, c.namespace)];
      }
    }
  }

  lemma MatchesOn(q: Query, cs: seq<Connector>, i: nat)
    requires i < |cs|
    ensures Matches(q, cs[..i + 1]) == Matches(q, cs[..i]) + MatchOf(q, cs[i])
  {
    assert cs[..i + 1][..i] == cs[..i];
  }

  /** Only the longest matches, which are at the front, are compared. */
  method FindTorn(matches: seq<Cover>) returns (torn: bool)
    requires InOrder(matches)
    ensures torn == TornFront(matches)
  {
    if matches == [] {
      return false;
    }
    var i := 1;
    while i < |matches| && matches[i].len == matches[0].len
      invariant 1 <= i <= |matches|
      invariant forall j :: 0 <= j < i ==> matches[j].len == matches[0].len && matches[j].ns == matches[0].ns
    {
      if matches[i].ns != matches[0].ns {
        return true;
      }
      i := i + 1;
    }
    forall j | i <= j < |matches| ensures matches[j].len < matches[0].len {
      assert !Before(matches[i], matches[0]);
      assert j > i ==> !Before(matches[j], matches[i]);
    }
    return false;
  }

  method LongestOf<R>(fit: R -> Option<nat>, routes: seq<R>, ghost id: string, ghost ns: string) returns (best: int)
    ensures best == Longest(CoversFrom(fit, routes, id, ns))
  {
    best := -1;
    var k := 0;
    while k < |routes|
      invariant 0 <= k <= |routes| && best == Longest(CoversFrom(fit, routes[..k], id, ns))
    {
      var n := fit(routes[k]);
      CoversFromOn(fit, routes, k, id, ns);
      if n.Some? {
        LongestOn(CoversFrom(fit, routes[..k], id, ns), Cover(n.value, id, ns));
        if n.value > best {
          best := n.value;
        }
      }
      k := k + 1;
    }
    assert routes[..|routes|] == routes;
  }

  lemma LongestOn(covers: seq<Cover>, c: Cover)
    ensures Longest(covers + [c]) == if c.len > Longest(covers) then c.len else Longest(covers)
  {
    assert (covers + [c])[..|covers|] == covers;
  }
}
