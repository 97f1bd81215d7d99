/** The item list of a dynamic entity reference field: the entities its
    items reference, loaded with one multiple-load per entity type and
    returned by delta, and the conversion of a field's default value
    between target ids (in the field) and target uuids (in configuration). */
module FieldItemList {
  import opened Wrappers
  import opened Entities
  import R = DynamicEntityReference
  import I = DynamicEntityReferenceItem

  /** The array key a target_type is filed under: NULL becomes ''. */
  function TypeKey(t: Option<string>): string
  {
    if t.Some? then t.value else ""
  }

  /** loadMultiple() on the storage of one entity type: the wanted ids that
      load, each with its entity. */
  function LoadMultiple(store: Store, entityType: string, wanted: set<Id>): (r: map<Id, Entity>)
    ensures forall id :: id in r <==> id in wanted && Load(store, Some(entityType), id).Some?
    ensures forall id :: id in r ==> Load(store, Some(entityType), id) == Some(r[id])
  {
    map id | id in wanted && Load(store, Some(entityType), id).Some? :: Load(store, Some(entityType), id).value
  }

  // ---------------------------------------------------------------------
  // referencedEntities()
  // ---------------------------------------------------------------------

  /** An item whose target_id is queued for loading: it holds no new
      entity and has a target_id. */
  predicate Queued(item: I.Item)
  {
    !I.HasNewEntity(item) && item.targetId.Some?
  }

  /** The entity of a queued item, if its id loads under its type. */
  function Loaded(item: I.Item, store: Store): Option<Entity>
    requires Queued(item)
  {
    Load(store, Some(TypeKey(item.targetType)), item.targetId.value)
  }

  /** What one item contributes to referencedEntities(): the entity of an
      autocreate item (NULL when it has none), the target of a queued item
      whose id loads, and nothing otherwise. */
  function Contribution(item: I.Item, store: Store): Option<Option<Entity>>
  {
    if I.HasNewEntity(item) then Some(R.AfterGetTarget(item.entity, store, item.targetType).1)
    else if Queued(item) && Loaded(item, store).Some? then Some(Loaded(item, store))
    else None
  }

  /** The contributions of the first n deltas, by ascending delta. */
  function Referenced(list: seq<I.Item>, store: Store, n: nat): (r: seq<(nat, Option<Entity>)>)
    requires n <= |list|
    ensures forall k :: 0 <= k < |r| ==> r[k].0 < n
    ensures |r| <= n
  {
    if n == 0 then []
    else
      var c := Contribution(list[n - 1], store);
      Referenced(list, store, n - 1) + if c.Some? then [(n - 1, c.value)] else []
  }

  /** Keyed entries ordered by strictly ascending delta. */
  predicate Ascending<V>(r: seq<(nat, V)>)
  {
    forall i, j :: 0 <= i < j < |r| ==> r[i].0 < r[j].0
  }

  /** The result is ordered by strictly ascending delta. */
  lemma {:induction false} ReferencedAscending(list: seq<I.Item>, store: Store, n: nat)
    requires n <= |list|
    ensures Ascending(Referenced(list, store, n))
  {
    if n > 0 {
      ReferencedAscending(list, store, n - 1);
      var p := Referenced(list, store, n - 1);
      var r := Referenced(list, store, n);
      var c := Contribution(list[n - 1], store);
      var tail := if c.Some? then [(n - 1, c.value)] else [];
      assert r == p + tail;
      forall i, j | 0 <= i < j < |r|
        ensures r[i].0 < r[j].0
      {
        assert r[i] == p[i];
        if j >= |p| {
          assert r[j] == tail[0];
          assert tail[0].0 == n - 1;
          assert p[i].0 < n - 1;
        } else {
          assert r[j] == p[j];
        }
      }
    }
  }

  /** A delta appears, with its entity, exactly when its item contributes:
      deltas naming the same target both appear, and ids that do not load
      leave gaps. */
  lemma {:induction false} ReferencedExactly(list: seq<I.Item>, store: Store, n: nat, d: nat, x: Option<Entity>)
    requires n <= |list|
    ensures (d, x) in Referenced(list, store, n) <==> d < n && Contribution(list[d], store) == Some(x)
  {
    if n > 0 {
      ReferencedExactly(list, store, n - 1, d, x);
    }
  }

  /** The entity types referencedEntities() loads from: those of the queued
      items. */
  function QueuedTypes(list: seq<I.Item>): set<string>
  {
    set d | 0 <= d < |list| && Queued(list[d]) :: TypeKey(list[d].targetType)
  }

  /** The first loop's state after i deltas: the autocreate entities taken
      so far, and the queued ids grouped by type and delta. */
  ghost predicate Grouped(list: seq<I.Item>, store: Store, i: nat, targets: map<nat, Option<Entity>>,
                          ids: map<string, map<nat, Id>>)
  {
    i <= |list| &&
    (forall d: nat :: d in targets <==> d < i && I.HasNewEntity(list[d])) &&
    (forall d: nat :: d in targets ==> d < i && targets[d] == Contribution(list[d], store).value) &&
    IdsGrouped(list, i, ids)
  }

  /** Delta d is filed under type t. */
  predicate Filed<V>(groups: map<string, map<nat, V>>, t: string, d: nat)
  {
    t in groups && d in groups[t]
  }

  /** ids holds, under each type, the deltas below i queued with that type,
      with their target_id. */
  ghost predicate IdsGrouped(list: seq<I.Item>, i: nat, ids: map<string, map<nat, Id>>)
  {
    i <= |list| &&
    (forall t, d: nat :: Filed(ids, t, d) ==>
       d < i && Queued(list[d]) && TypeKey(list[d].targetType) == t && ids[t][d] == list[d].targetId.value) &&
    (forall d: nat :: d < i && Queued(list[d]) ==> Filed(ids, TypeKey(list[d].targetType), d)) &&
    (forall t :: t in ids ==> exists d: nat :: Filed(ids, t, d))
  }

  /** groups with delta i filed under type t, with value v. */
  function FileUnder<V>(groups: map<string, map<nat, V>>, t: string, i: nat, v: V): map<string, map<nat, V>>
  {
    groups[t := (if t in groups then groups[t] else map[])[i := v]]
  }

  lemma IdsStep(list: seq<I.Item>, i: nat, ids: map<string, map<nat, Id>>)
    requires i < |list| && IdsGrouped(list, i, ids)
    ensures Queued(list[i]) ==>
      IdsGrouped(list, i + 1, FileUnder(ids, TypeKey(list[i].targetType), i, list[i].targetId.value))
    ensures !Queued(list[i]) ==> IdsGrouped(list, i + 1, ids)
  {
    if Queued(list[i]) {
      IdsFiledSound(list, i, ids);
      IdsFiledComplete(list, i, ids);
      IdsFiledNonEmpty(list, i, ids);
    }
  }

  /** Filing item i keeps every filed id at its own delta and type. */
  lemma IdsFiledSound(list: seq<I.Item>, i: nat, ids: map<string, map<nat, Id>>)
    requires i < |list| && IdsGrouped(list, i, ids) && Queued(list[i])
    ensures var ids' := FileUnder(ids, TypeKey(list[i].targetType), i, list[i].targetId.value);
      forall u, d: nat :: Filed(ids', u, d) ==>
        d < i + 1 && Queued(list[d]) && TypeKey(list[d].targetType) == u && ids'[u][d] == list[d].targetId.value
  {
    var t := TypeKey(list[i].targetType);
    var ids' := FileUnder(ids, t, i, list[i].targetId.value);
    forall u, d: nat | Filed(ids', u, d)
      ensures d < i + 1 && Queued(list[d]) && TypeKey(list[d].targetType) == u && ids'[u][d] == list[d].targetId.value
    {
      if u != t || d != i {
        assert Filed(ids, u, d);
      }
    }
  }

  /** Filing item i leaves every queued item up to i filed. */
  lemma IdsFiledComplete(list: seq<I.Item>, i: nat, ids: map<string, map<nat, Id>>)
    requires i < |list| && IdsGrouped(list, i, ids) && Queued(list[i])
    ensures var ids' := FileUnder(ids, TypeKey(list[i].targetType), i, list[i].targetId.value);
      forall d: nat :: d < i + 1 && Queued(list[d]) ==> Filed(ids', TypeKey(list[d].targetType), d)
  {
    var t := TypeKey(list[i].targetType);
    var ids' := FileUnder(ids, t, i, list[i].targetId.value);
    assert Filed(ids', t, i);
    forall d: nat | d < i && Queued(list[d])
      ensures Filed(ids', TypeKey(list[d].targetType), d)
    {
      assert Filed(ids, TypeKey(list[d].targetType), d);
    }
  }

  /** Filing item i leaves no type with an empty group. */
  lemma IdsFiledNonEmpty(list: seq<I.Item>, i: nat, ids: map<string, map<nat, Id>>)
    requires i < |list| && IdsGrouped(list, i, ids) && Queued(list[i])
    ensures var ids' := FileUnder(ids, TypeKey(list[i].targetType), i, list[i].targetId.value);
      forall u :: u in ids' ==> exists d: nat :: Filed(ids', u, d)
  {
    var t := TypeKey(list[i].targetType);
    var ids' := FileUnder(ids, t, i, list[i].targetId.value);
    assert Filed(ids', t, i);
    forall u | u in ids'
      ensures exists d: nat :: Filed(ids', u, d)
    {
      if u != t {
        var d: nat :| Filed(ids, u, d);
        assert Filed(ids', u, d);
      }
    }
  }

  lemma GroupStep(list: seq<I.Item>, store: Store, i: nat, targets: map<nat, Option<Entity>>,
                  ids: map<string, map<nat, Id>>)
    requires i < |list| && Grouped(list, store, i, targets, ids)
    ensures var item := list[i];
      if I.HasNewEntity(item) then
        Grouped(list, store, i + 1, targets[i := R.AfterGetTarget(item.entity, store, item.targetType).1], ids)
      else if item.targetId.Some? then
        Grouped(list, store, i + 1, targets, FileUnder(ids, TypeKey(item.targetType), i, item.targetId.value))
      else Grouped(list, store, i + 1, targets, ids)
  {
    IdsStep(list, i, ids);
  }

  /** The second loop's state once the types in done are loaded: the
      autocreate entities, and the queued deltas of those types whose ids
      loaded. */
  ghost predicate LoadedUpTo(list: seq<I.Item>, store: Store, done: set<string>, targets: map<nat, Option<Entity>>)
  {
    (forall d :: d in targets ==>
       d < |list| && Contribution(list[d], store).Some? && targets[d] == Contribution(list[d], store).value) &&
    (forall d :: (0 <= d < |list| && Contribution(list[d], store).Some? &&
                  (Queued(list[d]) ==> TypeKey(list[d].targetType) in done)) ==> d in targets) &&
    (forall d :: d in targets && Queued(list[d]) ==> TypeKey(list[d].targetType) in done)
  }

  /** The deltas of type t whose ids are among the loaded entities. */
  function Found(ids: map<nat, Id>, entities: map<Id, Entity>): map<nat, Option<Entity>>
  {
    map d | d in ids && ids[d] in entities :: Some(entities[ids[d]])
  }

  lemma LoadStart(list: seq<I.Item>, store: Store, targets: map<nat, Option<Entity>>, ids: map<string, map<nat, Id>>)
    requires Grouped(list, store, |list|, targets, ids)
    ensures LoadedUpTo(list, store, {}, targets)
  {
  }

  /** A delta found by the load of type t carries its item's contribution. */
  lemma FoundContributes(list: seq<I.Item>, store: Store, ids: map<string, map<nat, Id>>, t: string, d: nat)
    requires IdsGrouped(list, |list|, ids) && t in ids
    requires d in Found(ids[t], LoadMultiple(store, t, ids[t].Values))
    ensures d < |list| && Queued(list[d]) && TypeKey(list[d].targetType) == t
    ensures Found(ids[t], LoadMultiple(store, t, ids[t].Values))[d] == Contribution(list[d], store).value
  {
    assert Filed(ids, t, d);
    var id := ids[t][d];
    var entities := LoadMultiple(store, t, ids[t].Values);
    assert id in entities;
    assert Loaded(list[d], store) == Some(entities[id]);
  }

  /** A queued delta of type t whose id loads is found by the load of t. */
  lemma ContributorFound(list: seq<I.Item>, store: Store, ids: map<string, map<nat, Id>>, t: string, d: nat)
    requires IdsGrouped(list, |list|, ids)
    requires d < |list| && Queued(list[d]) && TypeKey(list[d].targetType) == t && Loaded(list[d], store).Some?
    ensures t in ids && d in Found(ids[t], LoadMultiple(store, t, ids[t].Values))
  {
    assert Filed(ids, t, d);
    assert ids[t][d] in ids[t].Values;
  }

  lemma LoadStep(list: seq<I.Item>, store: Store, ids: map<string, map<nat, Id>>, done: set<string>,
                 targets: map<nat, Option<Entity>>, t: string)
    requires IdsGrouped(list, |list|, ids) && t in ids && t !in done
    requires LoadedUpTo(list, store, done, targets)
    ensures LoadedUpTo(list, store, done + {t},
                       targets + Found(ids[t], LoadMultiple(store, t, ids[t].Values)))
  {
    var found := Found(ids[t], LoadMultiple(store, t, ids[t].Values));
    var next := targets + found;
    forall d: nat | d in next
      ensures d < |list| && Contribution(list[d], store).Some? && next[d] == Contribution(list[d], store).value
    {
      if d in found {
        FoundContributes(list, store, ids, t, d);
      }
    }
    forall d: nat | d < |list| && Contribution(list[d], store).Some? &&
               (Queued(list[d]) ==> TypeKey(list[d].targetType) in done + {t})
      ensures d in next
    {
      if Queued(list[d]) && TypeKey(list[d].targetType) == t {
        ContributorFound(list, store, ids, t, d);
      }
    }
    forall d: nat | d in next && Queued(list[d])
      ensures TypeKey(list[d].targetType) in done + {t}
    {
      if d in found {
        FoundContributes(list, store, ids, t, d);
      }
    }
  }

  /** Once every queued type is loaded, the deltas present are exactly
      the contributing ones. */
  lemma LoadEnd(list: seq<I.Item>, store: Store, ids: map<string, map<nat, Id>>, targets: map<nat, Option<Entity>>)
    requires IdsGrouped(list, |list|, ids) && LoadedUpTo(list, store, ids.Keys, targets)
    ensures forall d: nat :: d in targets <==> d < |list| && Contribution(list[d], store).Some?
    ensures forall d :: d in targets ==> targets[d] == Contribution(list[d], store).value
    ensures ids.Keys == QueuedTypes(list)
  {
    forall t | t in ids
      ensures t in QueuedTypes(list)
    {
      var d: nat :| Filed(ids, t, d);
      assert TypeKey(list[d].targetType) in QueuedTypes(list);
    }
  }

  /** referencedEntities(): the queued ids are loaded once per entity type
      (loadedTypes lists those loads), and the result is keyed by ascending
      delta. */
  method ReferencedEntities(list: seq<I.Item>, store: Store) returns (r: seq<(nat, Option<Entity>)>, loadedTypes: seq<string>)
    ensures r == Referenced(list, store, |list|)
    ensures (set t | t in loadedTypes) == QueuedTypes(list)
    ensures forall i, j :: 0 <= i < j < |loadedTypes| ==> loadedTypes[i] != loadedTypes[j]
  {
    if |list| == 0 {
      return [], [];
    }
    var targets, ids := GroupQueued(list, store);
    targets, loadedTypes := LoadQueued(list, store, targets, ids);
    LoadEnd(list, store, ids, targets);
    r := ByDelta(list, store, targets);
  }

  /** The first loop of referencedEntities(): autocreate entities taken
      as they are, the other ids grouped by type. */
  method GroupQueued(list: seq<I.Item>, store: Store) returns (targets: map<nat, Option<Entity>>, ids: map<string, map<nat, Id>>)
    ensures Grouped(list, store, |list|, targets, ids)
  {
    targets, ids := map[], map[];
    var i := 0;
    while i < |list|
      invariant Grouped(list, store, i, targets, ids)
    {
      GroupStep(list, store, i, targets, ids);
      var item := list[i];
      if I.HasNewEntity(item) {
        targets := targets[i := R.AfterGetTarget(item.entity, store, item.targetType).1];
      } else if item.targetId.Some? {
        ids := FileUnder(ids, TypeKey(item.targetType), i, item.targetId.value);
      }
      i := i + 1;
    }
  }

  /** Recording one more loaded type, not loaded before, keeps the
      record free of repeats. */
  lemma TypesStep(loadedTypes: seq<string>, done: set<string>, t: string)
    requires (set u | u in loadedTypes) == done && t !in done
    requires forall i, j :: 0 <= i < j < |loadedTypes| ==> loadedTypes[i] != loadedTypes[j]
    ensures (set u | u in loadedTypes + [t]) == done + {t}
    ensures forall i, j :: 0 <= i < j < |loadedTypes + [t]| ==> (loadedTypes + [t])[i] != (loadedTypes + [t])[j]
  {
    assert t !in loadedTypes by {
      assert t !in (set u | u in loadedTypes);
    }
    assert (set u | u in loadedTypes + [t]) == (set u | u in loadedTypes) + {t};
  }

  /** The second loop of referencedEntities(): one multiple-load per type,
      keeping the deltas whose ids loaded. */
  method LoadQueued(list: seq<I.Item>, store: Store, targets0: map<nat, Option<Entity>>, ids: map<string, map<nat, Id>>)
    returns (targets: map<nat, Option<Entity>>, loadedTypes: seq<string>)
    requires Grouped(list, store, |list|, targets0, ids)
    ensures IdsGrouped(list, |list|, ids) && LoadedUpTo(list, store, ids.Keys, targets)
    ensures (set t | t in loadedTypes) == ids.Keys
    ensures forall i, j :: 0 <= i < j < |loadedTypes| ==> loadedTypes[i] != loadedTypes[j]
  {
    LoadStart(list, store, targets0, ids);
    targets := targets0;
    var pending := ids.Keys;
    loadedTypes := [];
    while pending != {}
      invariant pending <= ids.Keys
      invariant LoadedUpTo(list, store, ids.Keys - pending, targets)
      invariant (set t | t in loadedTypes) == ids.Keys - pending
      invariant forall i, j :: 0 <= i < j < |loadedTypes| ==> loadedTypes[i] != loadedTypes[j]
      decreases pending
    {
      var t :| t in pending;
      LoadStep(list, store, ids, ids.Keys - pending, targets, t);
      var entities := LoadMultiple(store, t, ids[t].Values);
      targets := targets + Found(ids[t], entities);
      TypesStep(loadedTypes, ids.Keys - pending, t);
      assert ids.Keys - (pending - {t}) == (ids.Keys - pending) + {t};
      pending := pending - {t};
      loadedTypes := loadedTypes + [t];
    }
  }

  /** ksort(): the loaded entries in ascending delta order. */
  method ByDelta(list: seq<I.Item>, store: Store, targets: map<nat, Option<Entity>>) returns (r: seq<(nat, Option<Entity>)>)
    requires forall d: nat :: d in targets <==> d < |list| && Contribution(list[d], store).Some?
    requires forall d :: d in targets ==> targets[d] == Contribution(list[d], store).value
    ensures r == Referenced(list, store, |list|)
  {
    r := [];
    var d := 0;
    while d < |list|
      invariant d <= |list| && r == Referenced(list, store, d)
    {
      if d in targets {
        r := r + [(d, targets[d])];
      }
      d := d + 1;
    }
  }

  // ---------------------------------------------------------------------
  // Default values: uuids in configuration, ids in the field
  // ---------------------------------------------------------------------

  /** One default value entry: its target_type, target_id and target_uuid
      properties (None where absent). */
  datatype DefaultEntry = DefaultEntry(targetType: Option<string>, targetId: Option<Id>, targetUuid: Option<string>)

  /** loadByProperties(['uuid' => ...]) on one entity type's storage, read
      as the id of the entity with the given uuid. */
  type UuidLookup = (string, string) -> Option<Id>

  /** An entry after processDefaultValue(): kept as it is without a
      target_uuid; with its target_id resolved and its target_uuid removed
      when the uuid is known; dropped otherwise. */
  function Resolve(entry: DefaultEntry, lookup: UuidLookup): (r: Option<DefaultEntry>)
    ensures r.Some? ==> r.value.targetUuid.None? && r.value.targetType == entry.targetType
    ensures entry.targetUuid.None? ==> r == Some(entry)
    ensures entry.targetUuid.Some? ==>
      (r.Some? <==> lookup(TypeKey(entry.targetType), entry.targetUuid.value).Some?) &&
      (r.Some? ==> r.value.targetId == lookup(TypeKey(entry.targetType), entry.targetUuid.value))
  {
    if entry.targetUuid.None? then Some(entry)
    else
      var id := lookup(TypeKey(entry.targetType), entry.targetUuid.value);
      if id.Some? then Some(entry.(targetId := id, targetUuid := None)) else None
  }

  /** processDefaultValue(): the resolved entries, renumbered from 0. */
  function Processed(values: seq<DefaultEntry>, lookup: UuidLookup): (r: seq<DefaultEntry>)
    ensures |r| <= |values|
    ensures forall k :: 0 <= k < |r| ==> r[k].targetUuid.None?
  {
    if |values| == 0 then []
    else
      var last := Resolve(values[|values| - 1], lookup);
      Processed(values[..|values| - 1], lookup) + if last.Some? then [last.value] else []
  }

  /** When every uuid resolves nothing is dropped: the list keeps its
      length and order, entry by entry. */
  lemma {:induction false} ProcessedKeepsResolved(values: seq<DefaultEntry>, lookup: UuidLookup)
    requires forall d :: 0 <= d < |values| ==> Resolve(values[d], lookup).Some?
    ensures var r := Processed(values, lookup);
      |r| == |values| && forall d :: 0 <= d < |values| ==> r[d] == Resolve(values[d], lookup).value
  {
    if |values| > 0 {
      ProcessedKeepsResolved(values[..|values| - 1], lookup);
    }
  }

  /** An entry with an unknown uuid is dropped, and the others close up. */
  lemma DroppedEntry(values: seq<DefaultEntry>, lookup: UuidLookup, d: nat)
    requires d < |values| && Resolve(values[d], lookup).None?
    ensures Processed(values, lookup) == Processed(values[..d], lookup) + Processed(values[d + 1..], lookup)
  {
    var front := values[..d + 1];
    assert front[..|front| - 1] == values[..d];
    assert Processed(front, lookup) == Processed(values[..d], lookup);
    ProcessedAppend(front, values[d + 1..], lookup);
    assert front + values[d + 1..] == values;
  }

  lemma {:induction false} ProcessedAppend(a: seq<DefaultEntry>, b: seq<DefaultEntry>, lookup: UuidLookup)
    ensures Processed(a + b, lookup) == Processed(a, lookup) + Processed(b, lookup)
    decreases |b|
  {
    if |b| == 0 {
      assert a + b == a;
    } else {
      assert (a + b)[..|a + b| - 1] == a + b[..|b| - 1];
      ProcessedAppend(a, b[..|b| - 1], lookup);
    }
  }

  /** The first loop's state: the uuids below delta i, grouped by type. */
  ghost predicate UuidsGrouped(values: seq<DefaultEntry>, i: nat, uuids: map<string, map<nat, string>>)
  {
    i <= |values| &&
    (forall t, d: nat :: Filed(uuids, t, d) ==>
       d < i && values[d].targetUuid == Some(uuids[t][d]) && TypeKey(values[d].targetType) == t) &&
    (forall d: nat :: d < i && values[d].targetUuid.Some? ==> Filed(uuids, TypeKey(values[d].targetType), d))
  }

  lemma UuidsStep(values: seq<DefaultEntry>, i: nat, uuids: map<string, map<nat, string>>)
    requires i < |values| && UuidsGrouped(values, i, uuids)
    ensures var t := TypeKey(values[i].targetType);
      if values[i].targetUuid.Some? then
        UuidsGrouped(values, i + 1, FileUnder(uuids, t, i, values[i].targetUuid.value))
      else UuidsGrouped(values, i + 1, uuids)
  {
    if values[i].targetUuid.Some? {
      var t := TypeKey(values[i].targetType);
      var uuids' := FileUnder(uuids, t, i, values[i].targetUuid.value);
      forall u, d: nat | Filed(uuids', u, d)
        ensures d < i + 1 && values[d].targetUuid == Some(uuids'[u][d]) && TypeKey(values[d].targetType) == u
      {
        if u == t && d == i {
        } else {
          assert Filed(uuids, u, d);
        }
      }
      forall d: nat | d < i && values[d].targetUuid.Some?
        ensures Filed(uuids', TypeKey(values[d].targetType), d)
      {
        assert Filed(uuids, TypeKey(values[d].targetType), d);
      }
    }
  }

  /** The second loop's state once the types in done are resolved: the
      entries of those types are resolved or removed, the others as given. */
  ghost predicate ResolvedUpTo(values: seq<DefaultEntry>, lookup: UuidLookup, done: set<string>,
                               byDelta: map<nat, DefaultEntry>)
  {
    (forall d: nat :: d in byDelta <==>
       d < |values| && (values[d].targetUuid.None? || TypeKey(values[d].targetType) !in done ||
                        Resolve(values[d], lookup).Some?)) &&
    (forall d :: d in byDelta ==>
       d < |values| &&
       byDelta[d] == if values[d].targetUuid.Some? && TypeKey(values[d].targetType) in done
                     then Resolve(values[d], lookup).value else values[d])
  }

  /** The round over one type: its entries resolved or removed. */
  function ResolveType(byDelta: map<nat, DefaultEntry>, t: string, uuids: map<nat, string>,
                       lookup: UuidLookup): map<nat, DefaultEntry>
  {
    map d | d in byDelta && (d !in uuids || lookup(t, uuids[d]).Some?) ::
      if d in uuids then byDelta[d].(targetId := lookup(t, uuids[d]), targetUuid := None) else byDelta[d]
  }

  lemma ResolveStep(values: seq<DefaultEntry>, lookup: UuidLookup, uuids: map<string, map<nat, string>>,
                    done: set<string>, byDelta: map<nat, DefaultEntry>, t: string)
    requires UuidsGrouped(values, |values|, uuids) && t in uuids && t !in done
    requires ResolvedUpTo(values, lookup, done, byDelta)
    ensures ResolvedUpTo(values, lookup, done + {t}, ResolveType(byDelta, t, uuids[t], lookup))
  {
  }

  /** The entries in delta order: array_values() on what is left. */
  lemma ResolveEnd(values: seq<DefaultEntry>, lookup: UuidLookup, uuids: map<string, map<nat, string>>,
                   byDelta: map<nat, DefaultEntry>, d: nat)
    requires UuidsGrouped(values, |values|, uuids) && ResolvedUpTo(values, lookup, uuids.Keys, byDelta)
    requires d < |values|
    ensures d in byDelta <==> Resolve(values[d], lookup).Some?
    ensures d in byDelta ==> byDelta[d] == Resolve(values[d], lookup).value
  {
  }

  /** processDefaultValue() on the entries the core processing leaves. */
  method ProcessDefaultValue(values: seq<DefaultEntry>, lookup: UuidLookup) returns (r: seq<DefaultEntry>)
    ensures r == Processed(values, lookup)
  {
    if |values| == 0 {
      return values;
    }
    var uuids := GroupUuids(values);
    var byDelta := ResolveTypes(values, lookup, uuids);
    r := Renumber(values, lookup, uuids, byDelta);
  }

  /** The first loop of processDefaultValue(): the uuids of the default
      values, grouped by target type and keyed by delta. */
  method GroupUuids(values: seq<DefaultEntry>) returns (uuids: map<string, map<nat, string>>)
    ensures UuidsGrouped(values, |values|, uuids)
  {
    uuids := map[];
    var i := 0;
    while i < |values|
      invariant UuidsGrouped(values, i, uuids)
    {
      UuidsStep(values, i, uuids);
      if values[i].targetUuid.Some? {
        var t := TypeKey(values[i].targetType);
        uuids := FileUnder(uuids, t, i, values[i].targetUuid.value);
      }
      i := i + 1;
    }
  }

  /** The second loop: per target type, each value whose uuid resolves is
      replaced by the resolved entry, the others are unset. */
  method ResolveTypes(values: seq<DefaultEntry>, lookup: UuidLookup, uuids: map<string, map<nat, string>>)
    returns (byDelta: map<nat, DefaultEntry>)
    requires UuidsGrouped(values, |values|, uuids)
    ensures ResolvedUpTo(values, lookup, uuids.Keys, byDelta)
  {
    byDelta := map d: nat | d < |values| :: values[d];
    var pending := uuids.Keys;
    while pending != {}
      invariant pending <= uuids.Keys
      invariant ResolvedUpTo(values, lookup, uuids.Keys - pending, byDelta)
      decreases pending
    {
      var t :| t in pending;
      ResolveStep(values, lookup, uuids, uuids.Keys - pending, byDelta, t);
      byDelta := ResolveType(byDelta, t, uuids[t], lookup);
      assert uuids.Keys - (pending - {t}) == (uuids.Keys - pending) + {t};
      pending := pending - {t};
    }
  }

  /** The renumbering that ends processDefaultValue(): the surviving
      values in delta order. */
  method Renumber(values: seq<DefaultEntry>, lookup: UuidLookup, uuids: map<string, map<nat, string>>,
                  byDelta: map<nat, DefaultEntry>) returns (r: seq<DefaultEntry>)
    requires UuidsGrouped(values, |values|, uuids) && ResolvedUpTo(values, lookup, uuids.Keys, byDelta)
    ensures r == Processed(values, lookup)
  {
    r := [];
    var d := 0;
    while d < |values|
      invariant d <= |values| && r == Processed(values[..d], lookup)
    {
      ResolveEnd(values, lookup, uuids, byDelta, d);
      assert values[..d + 1][..d] == values[..d];
      if d in byDelta {
        r := r + [byDelta[d]];
      }
      d := d + 1;
    }
    assert values[..d] == values;
  }

  /** defaultValuesFormSubmit(): every entry's target_id replaced by the
      uuid of the entity it loads; an entry whose entity does not load is
      a method call on NULL. */
  function Submitted(values: seq<DefaultEntry>, store: Store): (r: Result<seq<DefaultEntry>>)
    ensures r.Ok? ==> |r.value| == |values|
  {
    if |values| == 0 then Ok([])
    else
      var entry := values[|values| - 1];
      match Submitted(values[..|values| - 1], store)
      case Err(e) => Err(e)
      case Ok(prefix) =>
        var e := if entry.targetId.Some? then Load(store, Some(TypeKey(entry.targetType)), entry.targetId.value) else None;
        if e.None? then Err(NullDereference("entity"))
        else Ok(prefix + [DefaultEntry(entry.targetType, None, Some(e.value.uuid))])
  }

  /** Submission succeeds exactly when every entry's target loads, and then
      each entry carries its target's uuid and no id. */
  lemma {:induction false} SubmittedExactly(values: seq<DefaultEntry>, store: Store)
    ensures Submitted(values, store).Ok? <==>
      forall d :: 0 <= d < |values| ==>
        values[d].targetId.Some? && Load(store, Some(TypeKey(values[d].targetType)), values[d].targetId.value).Some?
    ensures Submitted(values, store).Ok? ==> forall d :: 0 <= d < |values| ==>
      Submitted(values, store).value[d] ==
        DefaultEntry(values[d].targetType, None,
                     Some(Load(store, Some(TypeKey(values[d].targetType)), values[d].targetId.value).value.uuid))
  {
    if |values| > 0 {
      var front := values[..|values| - 1];
      SubmittedExactly(front, store);
      assert forall d :: 0 <= d < |front| ==> front[d] == values[d];
    }
  }

  /** The uuid lookup finds every stored entity by its uuid. */
  ghost predicate FindsByUuid(store: Store, lookup: UuidLookup)
  {
    forall t, k :: t in store && k in store[t] ==> lookup(t, store[t][k].uuid) == store[t][k].id
  }

  /** Round trip: a default value saved to configuration as uuids and
      processed back gives the same entries, with equal ids. */
  lemma RoundTrip(values: seq<DefaultEntry>, store: Store, lookup: UuidLookup)
    requires Coherent(store) && FindsByUuid(store, lookup)
    requires Submitted(values, store).Ok?
    ensures var back := Processed(Submitted(values, store).value, lookup);
      |back| == |values| &&
      forall d :: 0 <= d < |values| ==>
        back[d].targetType == values[d].targetType && back[d].targetUuid.None? &&
        back[d].targetId.Some? && values[d].targetId.Some? &&
        LooseEquals(back[d].targetId.value, values[d].targetId.value)
  {
    var saved := Submitted(values, store).value;
    SubmittedExactly(values, store);
    forall d | 0 <= d < |saved|
      ensures Resolve(saved[d], lookup).Some?
      ensures Resolve(saved[d], lookup).value.targetId.Some?
      ensures LooseEquals(Resolve(saved[d], lookup).value.targetId.value, values[d].targetId.value)
    {
      var t := TypeKey(values[d].targetType);
      var id := values[d].targetId.value;
      var e := Load(store, Some(t), id).value;
      assert e == store[t][Key(id)];
    }
    ProcessedKeepsResolved(saved, lookup);
  }

  /** defaultValuesFormSubmit() on the entries the core submission gives:
      ids grouped by type, one multiple-load per type, then each entry
      rewritten. */
  method DefaultValuesFormSubmit(values: seq<DefaultEntry>, store: Store) returns (r: Result<seq<DefaultEntry>>)
    ensures r == Submitted(values, store)
  {
    var allIds: map<string, set<Id>> := map[];
    var i := 0;
    while i < |values|
      invariant i <= |values|
      invariant forall d :: 0 <= d < i && values[d].targetId.Some? ==>
        TypeKey(values[d].targetType) in allIds && values[d].targetId.value in allIds[TypeKey(values[d].targetType)]
    {
      var t := TypeKey(values[i].targetType);
      var ids := if t in allIds then allIds[t] else {};
      allIds := allIds[t := if values[i].targetId.Some? then ids + {values[i].targetId.value} else ids];
      i := i + 1;
    }
    var entities: map<string, map<Id, Entity>> := map t | t in allIds :: LoadMultiple(store, t, allIds[t]);
    var out: seq<DefaultEntry> := [];
    var d := 0;
    while d < |values|
      invariant d <= |values| && Submitted(values[..d], store) == Ok(out)
    {
      assert values[..d + 1][..d] == values[..d];
      var entry := values[d];
      var t := TypeKey(entry.targetType);
      if entry.targetId.None? || entry.targetId.value !in entities[t] {
        SubmittedErr(values, store, d);
        return Err(NullDereference("entity"));
      }
      out := out + [DefaultEntry(entry.targetType, None, Some(entities[t][entry.targetId.value].uuid))];
      d := d + 1;
    }
    assert values[..d] == values;
    r := Ok(out);
  }

  /** A failure at one entry is the failure of the whole submission. */
  lemma {:induction false} SubmittedErr(values: seq<DefaultEntry>, store: Store, d: nat)
    requires d < |values| && Submitted(values[..d + 1], store).Err?
    ensures Submitted(values, store) == Err(NullDereference("entity"))
    decreases |values|
  {
    SubmittedErrIs(values[..d + 1], store);
    if d + 1 < |values| {
      var front := values[..|values| - 1];
      assert front[..d + 1] == values[..d + 1];
      SubmittedErr(front, store, d);
    } else {
      assert values[..d + 1] == values;
    }
  }

  lemma {:induction false} SubmittedErrIs(values: seq<DefaultEntry>, store: Store)
    ensures Submitted(values, store).Err? ==> Submitted(values, store) == Err(NullDereference("entity"))
  {
    if |values| > 0 {
      SubmittedErrIs(values[..|values| - 1], store);
    }
  }
}
