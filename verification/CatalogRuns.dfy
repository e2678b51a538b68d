/** Whole histories of the asset catalog, and what a replacement leaves (assetcatalog/distribution.go). */
module CatalogRuns {
  import opened Text
  import opened Catalog

  // ---- histories ----

  datatype Op =
    | Upserting(kind: Kind, item: Item)
    | Deleting(key: Key)
    | Replacing(lists: Lists)

  /** An operation that fails leaves the published catalog as it was. */
  function Step(s: State, shipped: Shipped, op: Op): State {
    match op
    case Upserting(kind, item) => (var t := Upsert(s, kind, item); if t.Some? then t.value else s)
    case Deleting(k) => Delete(s, shipped, k)
    case Replacing(lists) => (var t := Replace(s, shipped, lists); if t.Some? then t.value else s)
  }

  function Play(s: State, shipped: Shipped, ops: seq<Op>): State {
    if ops == [] then s else Step(Play(s, shipped, ops[..|ops| - 1]), shipped, ops[|ops| - 1])
  }

  /** Ids are distinct across kinds: `kindOf` says, for each tenant and id, the one kind that may use it. */
  ghost predicate Agrees(kindOf: (string, string) -> Kind, kind: Kind, item: Item) {
    if Blank(item.id) then forall n: nat :: kindOf(TrimSpace(item.tenant), Prefix(kind) + "-" + Itoa(n)) == kind
    else kindOf(TrimSpace(item.tenant), item.id) == kind
  }

  ghost predicate AllAgree(kindOf: (string, string) -> Kind, kind: Kind, items: seq<Item>) {
    forall i :: 0 <= i < |items| ==> Agrees(kindOf, kind, items[i])
  }

  ghost predicate OpAgrees(kindOf: (string, string) -> Kind, op: Op) {
    match op
    case Upserting(kind, item) => Agrees(kindOf, kind, item)
    case Deleting(_) => true
    case Replacing(lists) =>
      AllAgree(kindOf, EndpointKind, lists.endpoints) && AllAgree(kindOf, GroupKind, lists.groups)
      && AllAgree(kindOf, ServiceKind, lists.services)
  }

  ghost predicate Sorted(kindOf: (string, string) -> Kind, s: State) {
    Inv(s) && forall k :: k in s.entities ==> kindOf(k.tenant, k.id) == k.kind
  }

  lemma PutSorted(kindOf: (string, string) -> Kind, s: State, k: Key, item: Item)
    requires Sorted(kindOf, s) && kindOf(k.tenant, k.id) == k.kind
    ensures Sorted(kindOf, Put(s, k, item))
  {
    PutKeepsIff(s, k, item);
  }

  lemma UpsertKeeps(kindOf: (string, string) -> Kind, s: State, kind: Kind, item: Item)
    requires Sorted(kindOf, s) && Agrees(kindOf, kind, item) && Upsert(s, kind, item).Some?
    ensures Sorted(kindOf, Upsert(s, kind, item).value)
  {
    var k := KeyFor(s, kind, item);
    assert kindOf(k.tenant, k.id) == kind;
    var counted := if Blank(item.id) then s.(counter := s.counter + 1) else s;
    CountedSorted(kindOf, s, counted);
    PutSorted(kindOf, counted, k, item);
    assert Upsert(s, kind, item) == Some(Put(counted, k, item));
  }

  lemma CountedSorted(kindOf: (string, string) -> Kind, s: State, t: State)
    requires Sorted(kindOf, s) && t.entities == s.entities && t.names == s.names
    ensures Sorted(kindOf, t)
  {
    CounterIsIrrelevant(s, t);
  }

  lemma CounterIsIrrelevant(s: State, t: State)
    requires Inv(s) && t.entities == s.entities && t.names == s.names
    ensures Inv(t)
  {
    forall n | n in t.names ensures exists k :: Bears(t, k, n) {
      var k :| Bears(s, k, n);
      assert Bears(t, k, n);
    }
  }

  lemma {:induction false} UpsertAllKeeps(kindOf: (string, string) -> Kind, s: State, kind: Kind, items: seq<Item>)
    requires Sorted(kindOf, s) && AllAgree(kindOf, kind, items) && UpsertAll(s, kind, items).Some?
    ensures Sorted(kindOf, UpsertAll(s, kind, items).value)
  {
    if items != [] {
      var front, last := items[..|items| - 1], items[|items| - 1];
      UpsertAllKeeps(kindOf, s, kind, front);
      UpsertKeeps(kindOf, UpsertAll(s, kind, front).value, kind, last);
    }
  }

  lemma ReplaceKeeps(kindOf: (string, string) -> Kind, s: State, shipped: Shipped, lists: Lists)
    requires Sorted(kindOf, s) && OpAgrees(kindOf, Replacing(lists)) && Replace(s, shipped, lists).Some?
    ensures Sorted(kindOf, Replace(s, shipped, lists).value)
  {
    var t := UpsertAll(s, EndpointKind, lists.endpoints).value;
    var u := UpsertAll(t, GroupKind, lists.groups).value;
    var v := UpsertAll(u, ServiceKind, lists.services).value;
    UpsertAllKeeps(kindOf, s, EndpointKind, lists.endpoints);
    UpsertAllKeeps(kindOf, t, GroupKind, lists.groups);
    UpsertAllKeeps(kindOf, u, ServiceKind, lists.services);
    DeleteAllKeeps(v, shipped, Stale(v, lists));
  }

  /** From an empty catalog with ids distinct across kinds, after every sequence of upserts, deletes and replacements
      the alias map and the entities correspond exactly, so no two entities of a tenant share an alias. */
  lemma {:induction false} RunKeepsAliases(kindOf: (string, string) -> Kind, shipped: Shipped, ops: seq<Op>)
    requires forall i :: 0 <= i < |ops| ==> OpAgrees(kindOf, ops[i])
    ensures Sorted(kindOf, Play(EMPTY, shipped, ops))
  {
    if ops != [] {
      var front, op := ops[..|ops| - 1], ops[|ops| - 1];
      RunKeepsAliases(kindOf, shipped, front);
      var s := Play(EMPTY, shipped, front);
      match op
      case Upserting(kind, item) => if Upsert(s, kind, item).Some? { UpsertKeeps(kindOf, s, kind, item); }
      case Deleting(k) => DeleteKeeps(s, shipped, k);
      case Replacing(lists) => if Replace(s, shipped, lists).Some? { ReplaceKeeps(kindOf, s, shipped, lists); }
    }
  }

  // ---- what a replacement leaves ----

  /** An entity without its alias, which a collision may have changed. */
  datatype Body = Body(source: string, payload: string)

  type Bodies = map<Key, Body>

  function BodiesOf(s: State): Bodies { map k | k in s.entities :: Body(s.entities[k].source, s.entities[k].payload) }

  /** The key an item is stored under when the counter stands at this value. */
  function StoredKey(kind: Kind, counter: nat, item: Item): Key {
    Key(kind, TrimSpace(item.tenant), if Blank(item.id) then Prefix(kind) + "-" + Itoa(counter + 1) else item.id)
  }

  function CounterAfter(counter: nat, items: seq<Item>): nat {
    if items == [] then counter
    else CounterAfter(counter, items[..|items| - 1]) + if Blank(items[|items| - 1].id) then 1 else 0
  }

  /** What a list says about each key it stores, the last mention counting. */
  function Says(kind: Kind, counter: nat, items: seq<Item>): Bodies {
    if items == [] then map[]
    else
      var front, last := items[..|items| - 1], items[|items| - 1];
      Says(kind, counter, front)[StoredKey(kind, CounterAfter(counter, front), last) := Body(last.source, last.payload)]
  }

  lemma UpsertBody(s: State, kind: Kind, item: Item)
    requires Upsert(s, kind, item).Some?
    ensures BodiesOf(Upsert(s, kind, item).value) == BodiesOf(s)[StoredKey(kind, s.counter, item) := Body(item.source, item.payload)]
    ensures Upsert(s, kind, item).value.counter == s.counter + if Blank(item.id) then 1 else 0
  {
  }

  lemma MergeThenUpdate(a: Bodies, b: Bodies, k: Key, v: Body)
    ensures (a + b)[k := v] == a + b[k := v]
  {
  }

  lemma {:induction false} UpsertAllBodies(s: State, kind: Kind, items: seq<Item>)
    requires UpsertAll(s, kind, items).Some?
    ensures BodiesOf(UpsertAll(s, kind, items).value) == BodiesOf(s) + Says(kind, s.counter, items)
    ensures UpsertAll(s, kind, items).value.counter == CounterAfter(s.counter, items)
  {
    if items == [] {
      assert BodiesOf(s) + map[] == BodiesOf(s);
    } else {
      var front, last := items[..|items| - 1], items[|items| - 1];
      UpsertAllBodies(s, kind, front);
      UpsertBody(UpsertAll(s, kind, front).value, kind, last);
      MergeThenUpdate(BodiesOf(s), Says(kind, s.counter, front), StoredKey(kind, CounterAfter(s.counter, front), last),
                      Body(last.source, last.payload));
    }
  }

  function AllSay(counter: nat, lists: Lists): Bodies {
    var groups := CounterAfter(counter, lists.endpoints);
    var services := CounterAfter(groups, lists.groups);
    Says(EndpointKind, counter, lists.endpoints) + Says(GroupKind, groups, lists.groups)
    + Says(ServiceKind, services, lists.services)
  }

  lemma MergeInTurn(a: Bodies, b: Bodies, c: Bodies, d: Bodies)
    ensures ((a + b) + c) + d == a + (b + c + d)
  {
  }

  lemma UpsertListsBodies(s: State, lists: Lists)
    requires UpsertLists(s, lists).Some?
    ensures BodiesOf(UpsertLists(s, lists).value) == BodiesOf(s) + AllSay(s.counter, lists)
  {
    var t := UpsertAll(s, EndpointKind, lists.endpoints).value;
    var u := UpsertAll(t, GroupKind, lists.groups).value;
    UpsertAllBodies(s, EndpointKind, lists.endpoints);
    UpsertAllBodies(t, GroupKind, lists.groups);
    UpsertAllBodies(u, ServiceKind, lists.services);
    MergeInTurn(BodiesOf(s), Says(EndpointKind, s.counter, lists.endpoints), Says(GroupKind, t.counter, lists.groups),
                Says(ServiceKind, u.counter, lists.services));
  }

  predicate Enrolled(k: Key, b: Body) { k.kind == EndpointKind && b.source == ENROLLED }

  /** What should be left: what the lists say, and what enrolment derived. */
  function Expected(before: Bodies, said: Bodies): Bodies {
    map k | k in before + said && (k in said || Enrolled(k, (before + said)[k])) :: (before + said)[k]
  }

  /** The key's joined text is among those written down to keep. */
  predicate Kept(lists: Lists, k: Key) { KeepText(k.tenant, k.id) in Keeps(Listed(lists, k.kind)) }

  /** An authored entry stays exactly if its text is kept or its id is shipped. */
  lemma LeftIff(t: State, shipped: Shipped, lists: Lists, k: Key)
    requires k in t.entities
    ensures k in DeleteAll(t, shipped, Stale(t, lists)).entities <==>
              Enrolled(k, BodiesOf(t)[k]) || Kept(lists, k) || ReadOnly(shipped, k)
  {
  }

  /** Two parts of one map agree exactly if they have the same keys. */
  lemma SameParts(all: Bodies, a: Bodies, b: Bodies)
    requires forall k :: k in a ==> k in all && a[k] == all[k]
    requires forall k :: k in b ==> k in all && b[k] == all[k]
    ensures a == b <==> forall k :: k in all ==> (k in a <==> k in b)
  {
    if forall k :: k in all ==> (k in a <==> k in b) {
      assert a.Keys == b.Keys;
    }
  }

  /** For every catalog and all lists: the authored part becomes exactly what the lists say, bodies included, with the
      endpoints derived from enrolment left in place, if and only if among the authored keys the texts written down
      and the shipped ids pick out the keys the lists say. */
  lemma ReplacedExactlyIff(s: State, shipped: Shipped, lists: Lists)
    requires Replace(s, shipped, lists).Some?
    ensures var said := AllSay(s.counter, lists);
            var all := BodiesOf(s) + said;
            BodiesOf(Replace(s, shipped, lists).value) == Expected(BodiesOf(s), said) <==>
              forall k :: k in all && !Enrolled(k, all[k]) ==> (k in said <==> Kept(lists, k) || ReadOnly(shipped, k))
  {
    var t, said := UpsertLists(s, lists).value, AllSay(s.counter, lists);
    var left := Replace(s, shipped, lists).value;
    var all, bodies, expected := BodiesOf(s) + said, BodiesOf(left), Expected(BodiesOf(s), said);
    UpsertListsBodies(s, lists);
    assert BodiesOf(t) == all;
    forall k | k in all
      ensures k in bodies <==> Enrolled(k, all[k]) || Kept(lists, k) || ReadOnly(shipped, k)
      ensures k in expected <==> Enrolled(k, all[k]) || k in said
    {
      assert k in BodiesOf(t) && k in t.entities;
      LeftIff(t, shipped, lists, k);
    }
    forall k | k in bodies ensures k in all && bodies[k] == all[k] { assert k in BodiesOf(t); }
    SameParts(all, bodies, expected);
  }

  // ---- entries written the way they are stored ----

  predicate Tidy(item: Item) { TrimSpace(item.tenant) == item.tenant && !Blank(item.id) }

  ghost predicate TidyLists(lists: Lists) {
    forall kind: Kind, i :: 0 <= i < |Listed(lists, kind)| ==> Tidy(Listed(lists, kind)[i])
  }

  predicate PlainTenant(tenant: string) { '\0' !in tenant }

  ghost predicate PlainLists(lists: Lists) {
    forall kind: Kind, i :: 0 <= i < |Listed(lists, kind)| ==> PlainTenant(Listed(lists, kind)[i].tenant)
  }

  ghost predicate PlainState(s: State) { forall k :: k in s.entities ==> PlainTenant(k.tenant) }

  /** Without a NUL in the tenants, the joined text stands for the pair. */
  lemma KeepTextInjective(t: string, i: string, u: string, j: string)
    requires PlainTenant(t) && PlainTenant(u) && KeepText(t, i) == KeepText(u, j)
    ensures t == u && i == j
  {
    var text := KeepText(t, i);
    assert text[|t|] == '\0' && text[|u|] == '\0';
    assert text[..|t|] == t && text[..|u|] == u;
    assert text[|t| + 1..] == i && text[|u| + 1..] == j;
  }

  /** The lists mention the key in the form it is stored under. */
  predicate Mentions(items: seq<Item>, k: Key) {
    exists i :: 0 <= i < |items| && items[i].tenant == k.tenant && items[i].id == k.id
  }

  lemma KeptIffMentioned(lists: Lists, k: Key)
    requires PlainLists(lists) && PlainTenant(k.tenant)
    ensures Kept(lists, k) <==> Mentions(Listed(lists, k.kind), k)
  {
    var items := Listed(lists, k.kind);
    if Kept(lists, k) {
      var i :| 0 <= i < |items| && KeepText(items[i].tenant, items[i].id) == KeepText(k.tenant, k.id);
      KeepTextInjective(items[i].tenant, items[i].id, k.tenant, k.id);
    }
  }

  lemma {:induction false} TidySaysMentioned(kind: Kind, counter: nat, items: seq<Item>, k: Key)
    requires forall i :: 0 <= i < |items| ==> Tidy(items[i])
    ensures k in Says(kind, counter, items) <==> k.kind == kind && Mentions(items, k)
  {
    if items != [] {
      var front, last := items[..|items| - 1], items[|items| - 1];
      TidySaysMentioned(kind, counter, front, k);
      MentionsOneMore(front, last, k);
      assert items == front + [last];
      TidyKey(kind, CounterAfter(counter, front), last);
    }
  }

  lemma MentionsOneMore(front: seq<Item>, last: Item, k: Key)
    ensures Mentions(front + [last], k) <==> Mentions(front, k) || (last.tenant == k.tenant && last.id == k.id)
  {
    var items := front + [last];
    assert items[|front|] == last && forall i :: 0 <= i < |front| ==> items[i] == front[i];
  }

  lemma TidyKey(kind: Kind, counter: nat, item: Item)
    requires Tidy(item)
    ensures StoredKey(kind, counter, item) == Key(kind, item.tenant, item.id)
  {
  }

  lemma TidySays(counter: nat, lists: Lists, k: Key)
    requires TidyLists(lists)
    ensures k in AllSay(counter, lists) <==> Mentions(Listed(lists, k.kind), k)
  {
    var groups := CounterAfter(counter, lists.endpoints);
    assert forall i :: 0 <= i < |lists.endpoints| ==> Listed(lists, EndpointKind)[i] == lists.endpoints[i];
    assert forall i :: 0 <= i < |lists.groups| ==> Listed(lists, GroupKind)[i] == lists.groups[i];
    assert forall i :: 0 <= i < |lists.services| ==> Listed(lists, ServiceKind)[i] == lists.services[i];
    TidySaysMentioned(EndpointKind, counter, lists.endpoints, k);
    TidySaysMentioned(GroupKind, groups, lists.groups, k);
    TidySaysMentioned(ServiceKind, CounterAfter(groups, lists.groups), lists.services, k);
  }

  /** With tidy entries and no NUL in a tenant, the authored part becomes exactly what the lists say if and only if no
      authored entry that the lists do not mention has a shipped id. */
  lemma ReplacedExactly(s: State, shipped: Shipped, lists: Lists)
    requires Replace(s, shipped, lists).Some? && TidyLists(lists) && PlainLists(lists) && PlainState(s)
    ensures var said := AllSay(s.counter, lists);
            BodiesOf(Replace(s, shipped, lists).value) == Expected(BodiesOf(s), said) <==>
              forall k :: k in s.entities && ReadOnly(shipped, k) ==> k in said || Enrolled(k, BodiesOf(s)[k])
  {
    var said := AllSay(s.counter, lists);
    var all := BodiesOf(s) + said;
    ReplacedExactlyIff(s, shipped, lists);
    forall k | k in all ensures Kept(lists, k) <==> k in said {
      TidySays(s.counter, lists, k);
      PlainKey(s, lists, k);
      KeptIffMentioned(lists, k);
    }
    if forall k :: k in all && !Enrolled(k, all[k]) ==> (k in said <==> Kept(lists, k) || ReadOnly(shipped, k)) {
      forall k | k in s.entities && ReadOnly(shipped, k) ensures k in said || Enrolled(k, BodiesOf(s)[k]) {
        assert k in all;
      }
    }
  }

  lemma PlainKey(s: State, lists: Lists, k: Key)
    requires PlainLists(lists) && PlainState(s) && (k in s.entities || Mentions(Listed(lists, k.kind), k))
    ensures PlainTenant(k.tenant)
  {
    if Mentions(Listed(lists, k.kind), k) {
      var items := Listed(lists, k.kind);
      var i :| 0 <= i < |items| && items[i].tenant == k.tenant && items[i].id == k.id;
    }
  }

  /** An entry the lists have just stored is dropped again exactly when its text was not written down and its id is not
      shipped; without a NUL in the tenants, when the lists do not mention it in the form it is stored under. */
  lemma StoredIsDroppedIff(s: State, shipped: Shipped, lists: Lists, k: Key)
    requires Replace(s, shipped, lists).Some?
    requires k in AllSay(s.counter, lists) && !Enrolled(k, AllSay(s.counter, lists)[k])
    ensures k !in Replace(s, shipped, lists).value.entities <==> !Kept(lists, k) && !ReadOnly(shipped, k)
    ensures PlainLists(lists) && PlainTenant(k.tenant) ==> (Kept(lists, k) <==> Mentions(Listed(lists, k.kind), k))
  {
    var t := UpsertLists(s, lists).value;
    UpsertListsBodies(s, lists);
    assert k in BodiesOf(t) && BodiesOf(t)[k] == AllSay(s.counter, lists)[k];
    LeftIff(t, shipped, lists, k);
    if PlainLists(lists) && PlainTenant(k.tenant) { KeptIffMentioned(lists, k); }
  }

  // ---- replacements that leave something else ----

  lemma UpsertOne(s: State, kind: Kind, item: Item)
    ensures UpsertAll(s, kind, [item]) == Upsert(s, kind, item)
  {
    assert [item][..0] == [];
  }

  lemma OneEndpoint(s: State, item: Item)
    ensures UpsertLists(s, Lists([item], [], [])) == Upsert(s, EndpointKind, item)
    ensures AllSay(s.counter, Lists([item], [], [])) == map[StoredKey(EndpointKind, s.counter, item) := Body(item.source, item.payload)]
  {
    UpsertOne(s, EndpointKind, item);
    assert [item][..0] == [];
    var said := Says(EndpointKind, s.counter, [item]);
    assert Says(EndpointKind, s.counter, []) == map[] && CounterAfter(s.counter, []) == s.counter;
    assert said == map[][StoredKey(EndpointKind, s.counter, item) := Body(item.source, item.payload)];
    assert said == map[StoredKey(EndpointKind, s.counter, item) := Body(item.source, item.payload)];
    assert said + map[] + map[] == said;
  }

  /** An endpoint whose tenant is not written trimmed is stored and dropped by one replacement. */
  lemma UntidyIsDropped(s: State, item: Item)
    requires TrimSpace(item.tenant) !in {"", item.tenant} && !Blank(item.id) && item.valid && item.source != ENROLLED
    requires PlainTenant(item.tenant) && PlainTenant(TrimSpace(item.tenant))
    ensures var r := Replace(s, {}, Lists([item], [], []));
            r.Some? && Key(EndpointKind, TrimSpace(item.tenant), item.id) !in r.value.entities
  {
    var lists, k := Lists([item], [], []), Key(EndpointKind, TrimSpace(item.tenant), item.id);
    OneEndpoint(s, item);
    StoredIsDroppedIff(s, {}, lists, k);
  }

  lemma UntidyExample(s: State, item: Item)
    requires item == Item(" t", "x", "x", "manual", "p", true)
    ensures var r := Replace(s, {}, Lists([item], [], [])); r.Some? && Key(EndpointKind, "t", "x") !in r.value.entities
  {
    assert TrimLeft(" t") == TrimLeft("t") == "t" && TrimRight("t") == "t";
    assert TrimLeft("x") == "x" && TrimRight("x") == "x";
    UntidyIsDropped(s, item);
  }

  /** An endpoint stored under a shipped id survives even a replacement by nothing. */
  lemma ShippedEntryStays(s: State, shipped: Shipped, k: Key)
    requires k in s.entities && ReadOnly(shipped, k) && !FromEnrolment(s, k)
    ensures var r := Replace(s, shipped, Lists([], [], []));
            r.Some? && k in r.value.entities && k !in Expected(BodiesOf(s), AllSay(s.counter, Lists([], [], [])))
  {
    LeftIff(s, shipped, Lists([], [], []), k);
  }

  /** A NUL in a tenant makes two entries share a text, so an entry nobody mentions is kept. */
  lemma NulKeepsStranger(s: State, t: string, u: string, i: string, item: Item)
    requires Key(EndpointKind, t, u + "\0" + i) in s.entities && !FromEnrolment(s, Key(EndpointKind, t, u + "\0" + i))
    requires item.tenant == t + "\0" + u == TrimSpace(item.tenant) && item.id == i && !Blank(i) && item.valid
    ensures var k, lists := Key(EndpointKind, t, u + "\0" + i), Lists([item], [], []);
            var r := Replace(s, {}, lists);
            r.Some? && k in r.value.entities && k !in Expected(BodiesOf(s), AllSay(s.counter, lists))
  {
    var k, lists := Key(EndpointKind, t, u + "\0" + i), Lists([item], [], []);
    OneEndpoint(s, item);
    assert |item.tenant| > |t|;
    var after := Upsert(s, EndpointKind, item).value;
    assert after.entities[k] == s.entities[k];
    assert KeepText(k.tenant, k.id) == KeepText(item.tenant, item.id) by {
      assert t + "\0" + (u + "\0" + i) == (t + "\0" + u) + "\0" + i;
    }
    assert lists.endpoints[0] == item;
    assert Kept(lists, k);
    LeftIff(after, {}, lists, k);
  }
}
