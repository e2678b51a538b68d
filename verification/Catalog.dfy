/** The asset catalog (assetcatalog): endpoints, groups and services of a tenant share one namespace of aliases. A
    colliding alias gets a numeric suffix. The nested maps of the source are maps keyed by kind, tenant and id. */
module Catalog {
  import opened Text

  datatype Kind = EndpointKind | GroupKind | ServiceKind

  datatype Key = Key(kind: Kind, tenant: string, id: string)

  datatype Name = Name(tenant: string, alias: string)

  type Names = map<Name, string>

  /** `payload` is everything the alias bookkeeping does not look at. */
  datatype Entity = Entity(alias: string, source: string, payload: string)

  /** What a caller asks to store; `valid` is whether the kind's own checks accept the payload. */
  datatype Item = Item(tenant: string, id: string, alias: string, source: string, payload: string, valid: bool)

  datatype State = State(entities: map<Key, Entity>, names: Names, counter: nat, generation: nat)

  const EMPTY: State := State(map[], map[], 0, 0)
  const ENROLLED: string := "enrolled"

  // ---- the alias search ----

  predicate Free(names: Names, tenant: string, alias: string, owner: string) {
    Name(tenant, alias) !in names || names[Name(tenant, alias)] == owner
  }

  /** The first try is the alias itself, the n-th has the suffix -n. */
  function Try(desired: string, n: nat): string { if n <= 1 then desired else desired + "-" + Itoa(n) }

  function Taken(names: Names, tenant: string, owner: string): set<Name> {
    set n | n in names && n.tenant == tenant && names[n] != owner
  }

  lemma TriesDiffer(desired: string, m: nat, n: nat)
    requires 1 <= m < n
    ensures Try(desired, m) != Try(desired, n)
  {
    if m > 1 {
      assert (desired + "-" + Itoa(m))[|desired| + 1..] == Itoa(m);
      assert (desired + "-" + Itoa(n))[|desired| + 1..] == Itoa(n);
      if Itoa(m) == Itoa(n) { ItoaInjective(m, n); }
    } else {
      assert |Try(desired, n)| > |desired|;
    }
  }

  /** The names of the first n tries. */
  ghost function Tried(tenant: string, desired: string, n: nat): set<Name> {
    if n == 0 then {} else Tried(tenant, desired, n - 1) + {Name(tenant, Try(desired, n))}
  }

  lemma {:induction false} TriedAre(tenant: string, desired: string, n: nat, name: Name)
    ensures name in Tried(tenant, desired, n) <==> exists i :: 1 <= i <= n && name == Name(tenant, Try(desired, i))
  {
    if n > 0 { TriedAre(tenant, desired, n - 1, name); }
  }

  lemma {:induction false} TriedCount(tenant: string, desired: string, n: nat)
    ensures |Tried(tenant, desired, n)| == n
  {
    if n > 0 {
      TriedCount(tenant, desired, n - 1);
      var last := Name(tenant, Try(desired, n));
      TriedAre(tenant, desired, n - 1, last);
      forall i | 1 <= i <= n - 1 ensures last != Name(tenant, Try(desired, i)) { TriesDiffer(desired, i, n); }
    }
  }

  /** No more tries can fail than there are aliases in use by others. */
  lemma FailedTriesAreFew(names: Names, tenant: string, desired: string, owner: string, n: nat)
    requires forall i :: 1 <= i <= n ==> !Free(names, tenant, Try(desired, i), owner)
    ensures n <= |Taken(names, tenant, owner)|
  {
    TriedCount(tenant, desired, n);
    forall name | name in Tried(tenant, desired, n) ensures name in Taken(names, tenant, owner) {
      TriedAre(tenant, desired, n, name);
    }
    SubsetSize(Tried(tenant, desired, n), Taken(names, tenant, owner));
  }

  /** The first free try from the n-th on. */
  function Search(names: Names, tenant: string, desired: string, owner: string, n: nat): (alias: string)
    requires n >= 1 && forall i :: 1 <= i < n ==> !Free(names, tenant, Try(desired, i), owner)
    ensures Free(names, tenant, alias, owner)
    ensures exists k :: n <= k <= |Taken(names, tenant, owner)| + 1 && alias == Try(desired, k)
                        && forall i :: 1 <= i < k ==> !Free(names, tenant, Try(desired, i), owner)
    decreases |Taken(names, tenant, owner)| + 1 - n
  {
    FailedTriesAreFew(names, tenant, desired, owner, n - 1);
    if Free(names, tenant, Try(desired, n), owner) then Try(desired, n)
    else
      FailedTriesAreFew(names, tenant, desired, owner, n);
      Search(names, tenant, desired, owner, n + 1)
  }

  /** The search loop: it ends within one more try than there are aliases in use. */
  method UniqueAlias(names: Names, tenant: string, desired: string, owner: string) returns (alias: string, tries: nat)
    ensures alias == Search(names, tenant, desired, owner, 1)
    ensures 1 <= tries <= |Taken(names, tenant, owner)| + 1
  {
    if Name(tenant, desired) !in names || names[Name(tenant, desired)] == owner {
      return desired, 1;
    }
    var n := 2;
    FailedTriesAreFew(names, tenant, desired, owner, 1);
    while !Free(names, tenant, desired + "-" + Itoa(n), owner)
      invariant n >= 2 && forall i :: 1 <= i < n ==> !Free(names, tenant, Try(desired, i), owner)
      invariant Search(names, tenant, desired, owner, 1) == Search(names, tenant, desired, owner, n)
      invariant n - 1 <= |Taken(names, tenant, owner)|
      decreases |Taken(names, tenant, owner)| + 1 - n
    {
      assert desired + "-" + Itoa(n) == Try(desired, n);
      FailedTriesAreFew(names, tenant, desired, owner, n);
      n := n + 1;
    }
    assert desired + "-" + Itoa(n) == Try(desired, n);
    return desired + "-" + Itoa(n), n;
  }

  // ---- claiming and releasing ----

  function Release(names: Names, tenant: string, owner: string): Names {
    map n | n in names && !(n.tenant == tenant && names[n] == owner) :: names[n]
  }

  function Desired(alias: string, id: string): string { if TrimSpace(alias) == "" then id else TrimSpace(alias) }

  function ClaimedAlias(names: Names, tenant: string, alias: string, owner: string): string {
    Search(Release(names, tenant, owner), tenant, Desired(alias, owner), owner, 1)
  }

  /** A claimed alias belongs to nobody else. */
  lemma ClaimedIsUnused(names: Names, tenant: string, alias: string, owner: string)
    ensures Name(tenant, ClaimedAlias(names, tenant, alias, owner)) !in Release(names, tenant, owner)
  {
  }

  // ---- upsert and delete ----

  function Put(s: State, k: Key, item: Item): State {
    var alias := ClaimedAlias(s.names, k.tenant, item.alias, k.id);
    State(
      s.entities[k := Entity(alias, item.source, item.payload)],
      Release(s.names, k.tenant, k.id)[Name(k.tenant, alias) := k.id],
      s.counter,
      if k.kind == EndpointKind && item.source == ENROLLED then s.generation else s.generation + 1)
  }

  function Prefix(kind: Kind): string {
    match kind
    case EndpointKind => "ep"
    case GroupKind => "grp"
    case ServiceKind => "svc"
  }

  /** Where the item is stored: the tenant trimmed, a blank id replaced by the next generated one. */
  function KeyFor(s: State, kind: Kind, item: Item): Key {
    Key(kind, TrimSpace(item.tenant), if Blank(item.id) then Prefix(kind) + "-" + Itoa(s.counter + 1) else item.id)
  }

  function Upsert(s: State, kind: Kind, item: Item): Option<State> {
    if TrimSpace(item.tenant) == "" || !item.valid then None
    else
      var counted := if Blank(item.id) then s.(counter := s.counter + 1) else s;
      Some(Put(counted, KeyFor(s, kind, item), item))
  }

  /** Ids of the shipped, read-only entries. */
  type Shipped = set<(Kind, string)>

  /** An endpoint or group under a shipped id is never deleted; for services nobody asks. */
  predicate ReadOnly(shipped: Shipped, k: Key) { k.kind != ServiceKind && (k.kind, k.id) in shipped }

  function Delete(s: State, shipped: Shipped, k: Key): State {
    if ReadOnly(shipped, k) || k !in s.entities then s
    else State(s.entities - {k}, Release(s.names, k.tenant, k.id), s.counter, s.generation + 1)
  }

  // ---- the correspondence ----

  /** Every entity's alias is registered to its id. */
  ghost predicate Registered(s: State) {
    forall k :: k in s.entities ==>
      var n := Name(k.tenant, s.entities[k].alias);
      n in s.names && s.names[n] == k.id
  }

  ghost predicate Bears(s: State, k: Key, n: Name) {
    && k in s.entities && n in s.names
    && k.tenant == n.tenant && k.id == s.names[n] && s.entities[k].alias == n.alias
  }

  /** Every registered alias is that of some entity of its owner. */
  ghost predicate Backed(s: State) {
    forall n :: n in s.names ==> exists k :: Bears(s, k, n)
  }

  ghost predicate AliasesUnique(s: State) {
    forall k, l | k in s.entities && l in s.entities ::
      Name(k.tenant, s.entities[k].alias) == Name(l.tenant, s.entities[l].alias) ==> k == l
  }

  /** The alias map and the entities correspond exactly. */
  ghost predicate Exact(s: State) { Registered(s) && Backed(s) && AliasesUnique(s) }

  ghost predicate IdsApart(s: State) {
    forall k, l :: k in s.entities && l in s.entities && k.tenant == l.tenant && k.id == l.id ==> k == l
  }

  ghost predicate Inv(s: State) { Exact(s) && IdsApart(s) }

  /** Where no other kind uses the id. */
  ghost predicate OwnId(s: State, k: Key) {
    forall l :: l in s.entities && l.tenant == k.tenant && l.id == k.id ==> l == k
  }

  lemma RegisteredApartIsUnique(s: State)
    requires Registered(s) && IdsApart(s)
    ensures AliasesUnique(s)
  {
    forall k, l | k in s.entities && l in s.entities && k.tenant == l.tenant && s.entities[k].alias == s.entities[l].alias
      ensures k == l
    {
      assert s.names[Name(k.tenant, s.entities[k].alias)] == k.id == l.id;
    }
  }

  lemma PutRegisters(s: State, k: Key, item: Item)
    requires Inv(s) && OwnId(s, k)
    ensures Registered(Put(s, k, item)) && IdsApart(Put(s, k, item))
  {
    var t := Put(s, k, item);
    ClaimedIsUnused(s.names, k.tenant, item.alias, k.id);
    forall l | l in t.entities
      ensures Name(l.tenant, t.entities[l].alias) in t.names && t.names[Name(l.tenant, t.entities[l].alias)] == l.id
    {
      if l != k { assert Name(l.tenant, s.entities[l].alias) in Release(s.names, k.tenant, k.id); }
    }
  }

  lemma PutBacks(s: State, k: Key, item: Item)
    requires Inv(s)
    ensures Backed(Put(s, k, item))
  {
    var t := Put(s, k, item);
    forall n | n in t.names ensures exists l :: Bears(t, l, n) {
      if n == Name(k.tenant, t.entities[k].alias) {
        assert Bears(t, k, n);
      } else {
        assert n in Release(s.names, k.tenant, k.id) && n in s.names;
        var l :| Bears(s, l, n);
        assert Bears(t, l, n);
      }
    }
  }

  /** Storing keeps the correspondence exactly when no other kind of the tenant uses the id. */
  lemma PutKeepsIff(s: State, k: Key, item: Item)
    requires Inv(s)
    ensures Exact(Put(s, k, item)) <==> OwnId(s, k)
    ensures OwnId(s, k) ==> Inv(Put(s, k, item))
  {
    var t := Put(s, k, item);
    PutBacks(s, k, item);
    if OwnId(s, k) {
      PutRegisters(s, k, item);
      RegisteredApartIsUnique(t);
    } else {
      var l :| l in s.entities && l.tenant == k.tenant && l.id == k.id && l != k;
      var n := Name(l.tenant, t.entities[l].alias);
      assert n !in Release(s.names, k.tenant, k.id);
      assert n in t.names ==> t.entities[l].alias == t.entities[k].alias;
    }
  }

  lemma DeleteKeeps(s: State, shipped: Shipped, k: Key)
    requires Inv(s)
    ensures Inv(Delete(s, shipped, k))
  {
    var t := Delete(s, shipped, k);
    if t != s {
      forall n | n in t.names ensures exists l :: Bears(t, l, n) {
        var l :| Bears(s, l, n);
        assert l != k && Bears(t, l, n);
      }
      forall l | l in t.entities ensures Name(l.tenant, t.entities[l].alias) in t.names {
        assert l.id != k.id || l.tenant != k.tenant;
      }
    }
  }

  // ---- replacing what was authored ----

  function UpsertAll(s: State, kind: Kind, items: seq<Item>): Option<State> {
    if items == [] then Some(s)
    else
      match UpsertAll(s, kind, items[..|items| - 1])
      case None => None
      case Some(t) => Upsert(t, kind, items[|items| - 1])
  }

  /** The three lists of one replacement. */
  datatype Lists = Lists(endpoints: seq<Item>, groups: seq<Item>, services: seq<Item>)

  function Listed(lists: Lists, kind: Kind): seq<Item> {
    match kind
    case EndpointKind => lists.endpoints
    case GroupKind => lists.groups
    case ServiceKind => lists.services
  }

  function UpsertLists(s: State, lists: Lists): Option<State> {
    match UpsertAll(s, EndpointKind, lists.endpoints)
    case None => None
    case Some(t) =>
      match UpsertAll(t, GroupKind, lists.groups)
      case None => None
      case Some(u) => UpsertAll(u, ServiceKind, lists.services)
  }

  /** How the source writes down which entries to keep: from the texts as they came in. */
  function KeepText(tenant: string, id: string): string { tenant + "\0" + id }

  function Keeps(items: seq<Item>): set<string> {
    set i | 0 <= i < |items| :: KeepText(items[i].tenant, items[i].id)
  }

  predicate FromEnrolment(s: State, k: Key)
    requires k in s.entities
  {
    k.kind == EndpointKind && s.entities[k].source == ENROLLED
  }

  /** Authored entries that the lists do not mention. */
  function Stale(s: State, lists: Lists): set<Key> {
    set k | k in s.entities && !FromEnrolment(s, k) && KeepText(k.tenant, k.id) !in Keeps(Listed(lists, k.kind))
  }

  /** The keys that a deletion takes effect on. */
  function Gone(s: State, shipped: Shipped, keys: set<Key>): set<Key> {
    set k | k in keys && k in s.entities && !ReadOnly(shipped, k)
  }

  function ReleaseAll(names: Names, gone: set<Key>): Names {
    map n | n in names && (forall k :: k in gone ==> !(n.tenant == k.tenant && names[n] == k.id)) :: names[n]
  }

  /** All of the keys deleted, in any order. */
  function DeleteAll(s: State, shipped: Shipped, keys: set<Key>): State {
    var gone := Gone(s, shipped, keys);
    State(s.entities - gone, ReleaseAll(s.names, gone), s.counter, s.generation + |gone|)
  }

  function Replace(s: State, shipped: Shipped, lists: Lists): Option<State> {
    match UpsertLists(s, lists)
    case None => None
    case Some(t) => Some(DeleteAll(t, shipped, Stale(t, lists)))
  }

  lemma ReleaseOneMore(names: Names, gone: set<Key>, k: Key)
    ensures ReleaseAll(Release(names, k.tenant, k.id), gone) == ReleaseAll(names, gone + {k})
  {
  }

  /** Deleting the keys one after another, whichever comes next, is deleting them all. */
  lemma DeleteAllStep(s: State, shipped: Shipped, keys: set<Key>, k: Key)
    requires k in keys
    ensures DeleteAll(s, shipped, keys) == DeleteAll(Delete(s, shipped, k), shipped, keys - {k})
  {
    var t := Delete(s, shipped, k);
    var gone, rest := Gone(s, shipped, keys), Gone(t, shipped, keys - {k});
    if k in gone {
      assert gone == rest + {k};
      ReleaseOneMore(s.names, rest, k);
      assert s.entities - gone == (s.entities - {k}) - rest;
    } else {
      assert gone == rest;
    }
  }

  lemma DeleteNone(s: State, shipped: Shipped)
    ensures DeleteAll(s, shipped, {}) == s
  {
    assert Gone(s, shipped, {}) == {};
    assert ReleaseAll(s.names, {}) == s.names;
  }

  lemma {:induction false} DeleteAllKeeps(s: State, shipped: Shipped, keys: set<Key>)
    requires Inv(s)
    ensures Inv(DeleteAll(s, shipped, keys))
    decreases |keys|
  {
    if keys == {} {
      DeleteNone(s, shipped);
    } else {
      var k :| k in keys;
      DeleteAllStep(s, shipped, keys, k);
      DeleteKeeps(s, shipped, k);
      DeleteAllKeeps(Delete(s, shipped, k), shipped, keys - {k});
    }
  }
}
