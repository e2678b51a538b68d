/** The asset catalog as the object the source updates in place. */
module CatalogStore {
  import opened Text
  import opened Catalog
  import opened CatalogRuns

  class Store {
    var entities: map<Key, Entity>
    var names: Names
    var counter: nat
    var generation: nat
    const shipped: Shipped

    ghost function View(): State reads this { State(entities, names, counter, generation) }

    constructor (builtIn: Shipped)
      ensures View() == EMPTY && shipped == builtIn
    {
      entities, names, counter, generation := map[], map[], 0, 0;
      shipped := builtIn;
    }

    method ReleaseAlias(tenant: string, owner: string)
      modifies this`names
      ensures names == Release(old(names), tenant, owner)
    {
      names := map n | n in names && !(n.tenant == tenant && names[n] == owner) :: names[n];
    }

    method ClaimAlias(tenant: string, desired: string, owner: string) returns (alias: string)
      modifies this`names
      ensures alias == ClaimedAlias(old(names), tenant, desired, owner)
      ensures names == Release(old(names), tenant, owner)[Name(tenant, alias) := owner]
    {
      ReleaseAlias(tenant, owner);
      var wanted := TrimSpace(desired);
      if wanted == "" {
        wanted := owner;
      }
      var tries;
      alias, tries := UniqueAlias(names, tenant, wanted, owner);
      names := names[Name(tenant, alias) := owner];
    }

    /** Refused without a tenant or with an unacceptable payload. */
    method UpsertItem(kind: Kind, item: Item) returns (ok: bool)
      modifies this
      ensures ok <==> Upsert(old(View()), kind, item).Some?
      ensures View() == Step(old(View()), shipped, Upserting(kind, item))
    {
      var tenant := TrimSpace(item.tenant);
      if tenant == "" || !item.valid {
        return false;
      }
      var id := item.id;
      if Blank(id) {
        counter := counter + 1;
        id := Prefix(kind) + "-" + Itoa(counter);
      }
      var alias := ClaimAlias(tenant, item.alias, id);
      entities := entities[Key(kind, tenant, id) := Entity(alias, item.source, item.payload)];
      if kind != EndpointKind || item.source != ENROLLED {
        generation := generation + 1;
      }
      return true;
    }

    method DeleteItem(k: Key) returns (removed: bool)
      modifies this
      ensures View() == Delete(old(View()), shipped, k)
      ensures removed <==> k in old(entities) && !ReadOnly(shipped, k)
    {
      if (k.kind != ServiceKind && (k.kind, k.id) in shipped) || k !in entities {
        return false;
      }
      entities := entities - {k};
      ReleaseAlias(k.tenant, k.id);
      generation := generation + 1;
      return true;
    }

    method UpsertItems(kind: Kind, items: seq<Item>) returns (ok: bool)
      modifies this
      ensures ok <==> UpsertAll(old(View()), kind, items).Some?
      ensures ok ==> View() == UpsertAll(old(View()), kind, items).value
    {
      var i := 0;
      while i < |items|
        invariant 0 <= i <= |items| && UpsertAll(old(View()), kind, items[..i]) == Some(View())
      {
        UpsertAllOn(old(View()), kind, items, i);
        ok := UpsertItem(kind, items[i]);
        if !ok {
          FailureSticks(old(View()), kind, items, i + 1);
          return;
        }
        i := i + 1;
      }
      assert items[..|items|] == items;
      ok := true;
    }

    /** Delete the keys one at a time, in whatever order they come. */
    method DeleteItems(keys: set<Key>) returns (removed: set<Key>)
      modifies this
      ensures View() == DeleteAll(old(View()), shipped, keys)
      ensures removed == Gone(old(View()), shipped, keys)
    {
      var left := keys;
      removed := {};
      while left != {}
        invariant left <= keys && DeleteAll(old(View()), shipped, keys) == DeleteAll(View(), shipped, left)
        invariant Gone(old(View()), shipped, keys) == removed + Gone(View(), shipped, left)
        decreases |left|
      {
        var k :| k in left;
        DeleteAllStep(View(), shipped, left, k);
        GoneStep(View(), shipped, left, k);
        var done := DeleteItem(k);
        if done {
          removed := removed + {k};
        }
        left := left - {k};
      }
      DeleteNone(View(), shipped);
    }

    /** Upsert what is listed, then delete the authored entries that are not. A failure leaves the catalog as it was. */
    method ReplaceAuthored(lists: Lists) returns (ok: bool, removed: set<Key>)
      modifies this
      ensures ok <==> Replace(old(View()), shipped, lists).Some?
      ensures View() == Step(old(View()), shipped, Replacing(lists))
      ensures ok ==> var t := UpsertLists(old(View()), lists).value; removed == Gone(t, shipped, Stale(t, lists))
    {
      var e, n, c, g := entities, names, counter, generation;
      removed := {};
      ok := UpsertItems(EndpointKind, lists.endpoints);
      if ok {
        ok := UpsertItems(GroupKind, lists.groups);
      }
      if ok {
        ok := UpsertItems(ServiceKind, lists.services);
      }
      if !ok {
        entities, names, counter, generation := e, n, c, g;
        return;
      }
      var stale := Stale(State(entities, names, counter, generation), lists);
      removed := DeleteItems(stale);
    }
  }

  lemma UpsertAllOn(s: State, kind: Kind, items: seq<Item>, i: nat)
    requires i < |items| && UpsertAll(s, kind, items[..i]).Some?
    ensures UpsertAll(s, kind, items[..i + 1]) == Upsert(UpsertAll(s, kind, items[..i]).value, kind, items[i])
  {
    assert items[..i + 1][..i] == items[..i];
  }

  lemma {:induction false} FailureSticks(s: State, kind: Kind, items: seq<Item>, i: nat)
    requires i <= |items| && UpsertAll(s, kind, items[..i]) == None
    ensures UpsertAll(s, kind, items) == None
    decreases |items| - i
  {
    if i == |items| {
      assert items[..i] == items;
    } else {
      assert items[..i + 1][..i] == items[..i];
      FailureSticks(s, kind, items, i + 1);
    }
  }

  lemma GoneStep(s: State, shipped: Shipped, keys: set<Key>, k: Key)
    requires k in keys
    ensures Gone(s, shipped, keys) ==
              Gone(Delete(s, shipped, k), shipped, keys - {k})
              + if k in s.entities && !ReadOnly(shipped, k) then {k} else {}
  {
  }
}
