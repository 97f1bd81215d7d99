/** prepareView() of the dynamic entity reference formatters: the targets
    of every item of every host entity are loaded (one multiple-load per
    entity type, revisions one by one), attached to their items, items whose
    target is gone are emptied and their lists re-keyed, and items the
    viewer may see are marked accessible. */
module DynamicEntityReferenceFormatter {
  import opened Wrappers
  import opened Entities
  import opened Strings
  import R = DynamicEntityReference
  import I = DynamicEntityReferenceItem
  import L = FieldItemList

  /** An item as the formatter sees it: the reference item, the revision
      id it may carry, and its access flag. */
  datatype ViewItem = ViewItem(item: I.Item, revisionId: Option<nat>, accessible: bool)

  /** Stored revisions: entity type, then revision id, to the entity. */
  type RevisionStore = map<string, map<nat, Entity>>

  /** entity_revision_load(type, revision id). */
  function LoadRevision(revisions: RevisionStore, t: string, rid: nat): Option<Entity>
  {
    if t in revisions && rid in revisions[t] then Some(revisions[t][rid]) else None
  }

  /** empty() on a revision id. */
  predicate EmptyRevision(rid: Option<nat>)
  {
    rid.None? || rid.value == 0
  }

  // ---------------------------------------------------------------------
  // Collecting the ids
  // ---------------------------------------------------------------------

  /** The ids queued per entity type: target ids for one multiple-load,
      revision ids for loading one by one. */
  datatype Queues = Queues(ids: map<string, seq<Id>>, revisions: map<string, seq<nat>>)

  /** $queue[t][] = x. */
  function Append<X>(queue: map<string, seq<X>>, t: string, x: X): map<string, seq<X>>
  {
    queue[t := (if t in queue then queue[t] else []) + [x]]
  }

  /** The queue of one type ([] when there is none). */
  function Queue<X>(queue: map<string, seq<X>>, t: string): seq<X>
  {
    if t in queue then queue[t] else []
  }

  /** A typed item with a revision id is queued for a revision load. */
  predicate RevisionQueued(v: ViewItem)
  {
    !EmptyRevision(v.revisionId) && !EmptyString(v.item.targetType)
  }

  /** Otherwise a typed item with a target id is queued for an id load. */
  predicate IdQueued(v: ViewItem)
  {
    !RevisionQueued(v) && !EmptyId(v.item.targetId) && !EmptyString(v.item.targetType)
  }

  /** One item of the first loop. */
  function Enqueue(q: Queues, v: ViewItem): Queues
  {
    if RevisionQueued(v) then q.(revisions := Append(q.revisions, v.item.targetType.value, v.revisionId.value))
    else if IdQueued(v) then q.(ids := Append(q.ids, v.item.targetType.value, v.item.targetId.value))
    else q
  }

  /** The queues after the first loop has seen items. */
  function Collected(items: seq<ViewItem>): Queues
  {
    if |items| == 0 then Queues(map[], map[])
    else Enqueue(Collected(items[..|items| - 1]), items[|items| - 1])
  }

  /** The items of every list, list after list. */
  function Concat(lists: seq<seq<ViewItem>>): seq<ViewItem>
  {
    if |lists| == 0 then [] else Concat(lists[..|lists| - 1]) + lists[|lists| - 1]
  }

  /** A target id is queued under a type exactly when some item not
      carrying a revision id has that type and id. */
  lemma {:induction false} IdsCollected(items: seq<ViewItem>, t: string, x: Id)
    ensures x in Queue(Collected(items).ids, t) <==>
      exists k :: 0 <= k < |items| && IdQueued(items[k]) && items[k].item.targetType == Some(t) &&
                  items[k].item.targetId == Some(x)
  {
    if |items| > 0 {
      var front := items[..|items| - 1];
      IdsCollected(front, t, x);
      if exists k :: 0 <= k < |front| && IdQueued(front[k]) && front[k].item.targetType == Some(t) &&
                     front[k].item.targetId == Some(x) {
        var k :| 0 <= k < |front| && IdQueued(front[k]) && front[k].item.targetType == Some(t) &&
                 front[k].item.targetId == Some(x);
        assert items[k] == front[k];
      }
      if exists k :: 0 <= k < |items| && IdQueued(items[k]) && items[k].item.targetType == Some(t) &&
                     items[k].item.targetId == Some(x) {
        var k :| 0 <= k < |items| && IdQueued(items[k]) && items[k].item.targetType == Some(t) &&
                 items[k].item.targetId == Some(x);
        if k < |front| {
          assert front[k] == items[k];
        }
      }
    }
  }

  /** A revision id is queued under a type exactly when some typed item
      carries it. */
  lemma {:induction false} RevisionsCollected(items: seq<ViewItem>, t: string, rid: nat)
    ensures rid in Queue(Collected(items).revisions, t) <==>
      exists k :: 0 <= k < |items| && RevisionQueued(items[k]) && items[k].item.targetType == Some(t) &&
                  items[k].revisionId == Some(rid)
  {
    if |items| > 0 {
      var front := items[..|items| - 1];
      RevisionsCollected(front, t, rid);
      if exists k :: 0 <= k < |front| && RevisionQueued(front[k]) && front[k].item.targetType == Some(t) &&
                     front[k].revisionId == Some(rid) {
        var k :| 0 <= k < |front| && RevisionQueued(front[k]) && front[k].item.targetType == Some(t) &&
                 front[k].revisionId == Some(rid);
        assert items[k] == front[k];
      }
      if exists k :: 0 <= k < |items| && RevisionQueued(items[k]) && items[k].item.targetType == Some(t) &&
                     items[k].revisionId == Some(rid) {
        var k :| 0 <= k < |items| && RevisionQueued(items[k]) && items[k].item.targetType == Some(t) &&
                 items[k].revisionId == Some(rid);
        if k < |front| {
          assert front[k] == items[k];
        }
      }
    }
  }

  /** The first loop: every item of every list, in order. */
  method Collect(lists: seq<seq<ViewItem>>) returns (q: Queues)
    ensures q == Collected(Concat(lists))
  {
    q := Queues(map[], map[]);
    var i := 0;
    while i < |lists|
      invariant i <= |lists| && q == Collected(Concat(lists[..i]))
    {
      var items := lists[i];
      var j := 0;
      assert Concat(lists[..i]) + items[..0] == Concat(lists[..i]);
      while j < |items|
        invariant j <= |items| && q == Collected(Concat(lists[..i]) + items[..j])
      {
        var seen := Concat(lists[..i]) + items[..j];
        assert (seen + [items[j]])[..|seen|] == seen;
        assert Concat(lists[..i]) + items[..j + 1] == seen + [items[j]];
        q := Enqueue(q, items[j]);
        j := j + 1;
      }
      assert lists[..i + 1][..i] == lists[..i];
      assert items[..j] == items;
      i := i + 1;
    }
    assert lists[..i] == lists;
  }

  // ---------------------------------------------------------------------
  // Loading
  // ---------------------------------------------------------------------

  /** entity_load_multiple(t, ids): the queued ids that load, under their
      keys. */
  function LoadKeys(store: Store, t: string, ids: seq<Id>): (r: map<string, Entity>)
    ensures forall k :: k in r <==> t in store && k in store[t] && exists i :: i in ids && Key(i) == k
    ensures forall k :: k in r ==> r[k] == store[t][k]
  {
    if t in store then map k | k in store[t] && (exists i | i in ids :: Key(i) == k) :: store[t][k] else map[]
  }

  /** The loaded targets of one type, before the revisions. */
  function IdEntities(store: Store, q: Queues, t: string): map<string, Entity>
  {
    if t in q.ids then LoadKeys(store, t, q.ids[t]) else map[]
  }

  /** The key a loaded revision is filed under: "id:revision_id". */
  function RevisionKey(e: Entity, rid: nat): string
  {
    IdText(e.id) + ":" + NatToString(rid)
  }

  /** The revision loop of one type: each revision filed under its key; a
      revision that does not load is a method call on NULL. */
  function AddRevisions(m: map<string, Entity>, revisions: RevisionStore, t: string, rids: seq<nat>): (r: Result<map<string, Entity>>)
    ensures r.Ok? <==> forall j :: 0 <= j < |rids| ==> LoadRevision(revisions, t, rids[j]).Some?
    ensures r.Err? ==> r == Err(NullDereference("target_entity"))
    decreases |rids|
  {
    if |rids| == 0 then Ok(m)
    else
      var e := LoadRevision(revisions, t, rids[0]);
      if e.None? then Err(NullDereference("target_entity"))
      else
        var r := AddRevisions(m[RevisionKey(e.value, rids[0]) := e.value], revisions, t, rids[1..]);
        assert r.Ok? ==> forall j :: 1 <= j < |rids| ==> rids[j] == rids[1..][j - 1];
        r
  }

  /** What the revision loop files: every revision under its own key, on
      top of what was there; nothing else. */
  lemma {:induction false} AddRevisionsFiles(m: map<string, Entity>, revisions: RevisionStore, t: string, rids: seq<nat>)
    requires AddRevisions(m, revisions, t, rids).Ok?
    ensures var r := AddRevisions(m, revisions, t, rids).value;
      forall j :: 0 <= j < |rids| ==> RevisionKey(LoadRevision(revisions, t, rids[j]).value, rids[j]) in r
    ensures var r := AddRevisions(m, revisions, t, rids).value;
      forall k :: k in m ==> k in r
    ensures var r := AddRevisions(m, revisions, t, rids).value;
      forall k :: k in r ==>
        (k in m && r[k] == m[k]) ||
        exists j :: 0 <= j < |rids| && LoadRevision(revisions, t, rids[j]) == Some(r[k]) && k == RevisionKey(r[k], rids[j])
    decreases |rids|
  {
    if |rids| > 0 {
      var e := LoadRevision(revisions, t, rids[0]).value;
      var m' := m[RevisionKey(e, rids[0]) := e];
      AddRevisionsFiles(m', revisions, t, rids[1..]);
      var r := AddRevisions(m, revisions, t, rids).value;
      assert r == AddRevisions(m', revisions, t, rids[1..]).value;
      forall j | 0 <= j < |rids|
        ensures RevisionKey(LoadRevision(revisions, t, rids[j]).value, rids[j]) in r
      {
        if j > 0 {
          assert rids[j] == rids[1..][j - 1];
        }
      }
      forall k | k in r
        ensures (k in m && r[k] == m[k]) ||
          exists j :: 0 <= j < |rids| && LoadRevision(revisions, t, rids[j]) == Some(r[k]) && k == RevisionKey(r[k], rids[j])
      {
        if !(k in m' && r[k] == m'[k]) {
          var j :| 0 <= j < |rids[1..]| && LoadRevision(revisions, t, rids[1..][j]) == Some(r[k]) &&
                   k == RevisionKey(r[k], rids[1..][j]);
          assert rids[1..][j] == rids[j + 1];
        } else if k == RevisionKey(e, rids[0]) {
          assert LoadRevision(revisions, t, rids[0]) == Some(r[k]);
        }
      }
    }
  }

  /** Every queued revision loads. */
  predicate RevisionsLoad(revisions: RevisionStore, q: Queues)
  {
    forall t, j :: t in q.revisions && 0 <= j < |q.revisions[t]| ==> LoadRevision(revisions, t, q.revisions[t][j]).Some?
  }

  /** $target_entities once both loops are done. */
  function TargetEntities(store: Store, revisions: RevisionStore, q: Queues): map<string, map<string, Entity>>
    requires RevisionsLoad(revisions, q)
  {
    map t | t in q.ids.Keys + q.revisions.Keys ::
      if t in q.revisions then AddRevisions(IdEntities(store, q, t), revisions, t, q.revisions[t]).value
      else IdEntities(store, q, t)
  }

  /** The revision loop of one type. */
  method LoadRevisions(m: map<string, Entity>, revisions: RevisionStore, t: string, rids: seq<nat>)
    returns (r: Result<map<string, Entity>>)
    ensures r == AddRevisions(m, revisions, t, rids)
  {
    var entities := m;
    var j := 0;
    while j < |rids|
      invariant j <= |rids|
      invariant AddRevisions(m, revisions, t, rids) == AddRevisions(entities, revisions, t, rids[j..])
    {
      var e := LoadRevision(revisions, t, rids[j]);
      if e.None? {
        return Err(NullDereference("target_entity"));
      }
      assert rids[j..][1..] == rids[j + 1..];
      entities := entities[RevisionKey(e.value, rids[j]) := e.value];
      j := j + 1;
    }
    r := Ok(entities);
  }

  /** The loading loops' state once the revisions of the types in done
      are filed. */
  ghost predicate LoadedUpTo(store: Store, revisions: RevisionStore, q: Queues, done: set<string>,
                             targets: map<string, map<string, Entity>>)
  {
    done <= q.revisions.Keys &&
    (forall t :: t in targets <==> t in q.ids || t in done) &&
    (forall t :: t in targets && t !in done ==> targets[t] == IdEntities(store, q, t)) &&
    (forall t :: t in done ==> Ok(targets[t]) == AddRevisions(IdEntities(store, q, t), revisions, t, q.revisions[t]))
  }

  lemma LoadedStart(store: Store, revisions: RevisionStore, q: Queues)
    ensures LoadedUpTo(store, revisions, q, {}, map t | t in q.ids :: LoadKeys(store, t, q.ids[t]))
  {
  }

  lemma LoadedStep(store: Store, revisions: RevisionStore, q: Queues, done: set<string>,
                   targets: map<string, map<string, Entity>>, t: string, entities: map<string, Entity>)
    requires LoadedUpTo(store, revisions, q, done, targets)
    requires t in q.revisions && t !in done
    requires Ok(entities) == AddRevisions(if t in targets then targets[t] else map[], revisions, t, q.revisions[t])
    ensures LoadedUpTo(store, revisions, q, done + {t}, targets[t := entities])
  {
    assert (if t in targets then targets[t] else map[]) == IdEntities(store, q, t);
  }

  /** A revision that does not load fails the whole call. */
  lemma LoadedFails(revisions: RevisionStore, q: Queues, m: map<string, Entity>, t: string)
    requires t in q.revisions && AddRevisions(m, revisions, t, q.revisions[t]).Err?
    ensures !RevisionsLoad(revisions, q)
  {
  }

  /** Once every type's revisions are filed, every queued revision loaded. */
  lemma LoadedAll(store: Store, revisions: RevisionStore, q: Queues, targets: map<string, map<string, Entity>>)
    requires LoadedUpTo(store, revisions, q, q.revisions.Keys, targets)
    ensures RevisionsLoad(revisions, q)
  {
    forall t, j | t in q.revisions && 0 <= j < |q.revisions[t]|
      ensures LoadRevision(revisions, t, q.revisions[t][j]).Some?
    {
      assert AddRevisions(IdEntities(store, q, t), revisions, t, q.revisions[t]).Ok?;
    }
  }

  lemma LoadedEnd(store: Store, revisions: RevisionStore, q: Queues, targets: map<string, map<string, Entity>>)
    requires LoadedUpTo(store, revisions, q, q.revisions.Keys, targets)
    ensures RevisionsLoad(revisions, q) && targets == TargetEntities(store, revisions, q)
  {
    LoadedAll(store, revisions, q, targets);
    var expected := TargetEntities(store, revisions, q);
    forall t | t in targets
      ensures t in expected && targets[t] == expected[t]
    {
      if t in q.revisions {
        var a := AddRevisions(IdEntities(store, q, t), revisions, t, q.revisions[t]);
        assert Ok(targets[t]) == a;
        assert expected[t] == a.value;
      } else {
        assert targets[t] == IdEntities(store, q, t);
      }
    }
    forall t | t in expected
      ensures t in targets
    {
    }
    assert targets.Keys == expected.Keys;
  }

  /** The two loading loops: one multiple-load per type of the id queue,
      then the revisions one by one. */
  method LoadTargets(store: Store, revisions: RevisionStore, q: Queues) returns (r: Result<map<string, map<string, Entity>>>)
    ensures r.Ok? <==> RevisionsLoad(revisions, q)
    ensures r.Ok? ==> r.value == TargetEntities(store, revisions, q)
    ensures r.Err? ==> r == Err(NullDereference("target_entity"))
  {
    var targets: map<string, map<string, Entity>> := map t | t in q.ids :: LoadKeys(store, t, q.ids[t]);
    LoadedStart(store, revisions, q);
    var pending := q.revisions.Keys;
    while pending != {}
      invariant pending <= q.revisions.Keys
      invariant LoadedUpTo(store, revisions, q, q.revisions.Keys - pending, targets)
      decreases pending
    {
      var t :| t in pending;
      var entities := LoadRevisions(if t in targets then targets[t] else map[], revisions, t, q.revisions[t]);
      if entities.Err? {
        LoadedFails(revisions, q, if t in targets then targets[t] else map[], t);
        return Err(entities.error);
      }
      LoadedStep(store, revisions, q, q.revisions.Keys - pending, targets, t, entities.value);
      targets := targets[t := entities.value];
      assert q.revisions.Keys - (pending - {t}) == (q.revisions.Keys - pending) + {t};
      pending := pending - {t};
    }
    LoadedEnd(store, revisions, q, targets);
    r := Ok(targets);
  }

  // ---------------------------------------------------------------------
  // Attaching
  // ---------------------------------------------------------------------

  /** The key an item is looked up by: "target_id:revision_id" when it has
      a revision id, its target_id otherwise. */
  function Identifier(v: ViewItem): string
  {
    if !EmptyRevision(v.revisionId) then IdText(v.item.targetId) + ":" + NatToString(v.revisionId.value)
    else IdText(v.item.targetId)
  }

  /** An autocreate item: target_id is exactly the integer 0. */
  predicate Autocreate(v: ViewItem)
  {
    v.item.targetId == Some(IntId(0))
  }

  /** The loaded target an item's key names, if any. */
  function Found(v: ViewItem, targets: map<string, map<string, Entity>>): Option<Entity>
  {
    var t := v.item.targetType;
    if t.Some? && t.value in targets && Identifier(v) in targets[t.value] then Some(targets[t.value][Identifier(v)])
    else None
  }

  /** FieldItemList::isEmpty() on one item: no target_id and no target. */
  predicate Empty(v: ViewItem)
  {
    v.item.targetId.None? && v.item.entity.target.None? && v.item.entity.id.None?
  }

  /** The second loop on one item, and whether it emptied the item. An
      autocreate item keeps its entity and is accessible; an item whose key
      did not load is emptied by setValue(NULL); a loaded item gets its
      entity and is accessible when the viewer may see the entity. */
  function Attach(v: ViewItem, targets: map<string, map<string, Entity>>, canView: Entity -> bool, store: Store): (r: (ViewItem, bool))
    ensures Autocreate(v) ==> r == (v.(accessible := true), false)
    ensures !Autocreate(v) && Found(v, targets).None? ==> r.1 && Empty(r.0) && r.0.accessible == v.accessible
    ensures !Autocreate(v) && Found(v, targets).Some? ==>
      var e := Found(v, targets).value;
      !r.1 && r.0.item.entity.target == Some(e) && r.0.item.targetType == Some(e.entityType) &&
      r.0.accessible == (v.accessible || canView(e))
  {
    if Autocreate(v) then (v.(accessible := true), false)
    else
      var e := Found(v, targets);
      if e.None? then
        (ViewItem(I.AfterSetValue(v.item, I.NullItem, true, true, store).0, None, v.accessible), true)
      else
        var item := I.AfterSetValue(v.item, I.EntityItem(e.value), true, true, store).0;
        (ViewItem(item, v.revisionId, v.accessible || canView(e.value)), false)
  }

  /** filterEmptyItems(): the non-empty items, renumbered. */
  function FilterEmpty(items: seq<ViewItem>): (r: seq<ViewItem>)
    ensures forall k :: 0 <= k < |r| ==> !Empty(r[k]) && r[k] in items
    ensures forall k :: 0 <= k < |items| && !Empty(items[k]) ==> items[k] in r
    ensures |r| <= |items|
  {
    if |items| == 0 then []
    else
      var front := FilterEmpty(items[..|items| - 1]);
      assert forall k :: 0 <= k < |items| - 1 ==> items[..|items| - 1][k] == items[k];
      if Empty(items[|items| - 1]) then front else front + [items[|items| - 1]]
  }

  /** Filtering one item keeps it exactly when it is not empty. */
  lemma FilterEmptySingle(v: ViewItem)
    ensures FilterEmpty([v]) == if Empty(v) then [] else [v]
  {
    assert [v][..0] == [];
  }

  /** Filtering distributes over concatenation: the non-empty items keep
      their order and their repeats, and nothing else is left. */
  lemma {:induction false} FilterEmptyAppend(a: seq<ViewItem>, b: seq<ViewItem>)
    ensures FilterEmpty(a + b) == FilterEmpty(a) + FilterEmpty(b)
    decreases |b|
  {
    if b == [] {
      assert a + b == a;
    } else {
      var init := b[..|b| - 1];
      var last := b[|b| - 1];
      FilterEmptyAppend(a, init);
      assert (a + b)[..|a + b| - 1] == a + init;
      assert (a + b)[|a + b| - 1] == last;
      assert b[..|b| - 1] == init;
    }
  }

  /** The items of one list after the second loop, and whether any item
      was emptied. */
  function Attached(items: seq<ViewItem>, targets: map<string, map<string, Entity>>, canView: Entity -> bool,
                    store: Store): (r: (seq<ViewItem>, bool))
    ensures |r.0| == |items|
    ensures forall k :: 0 <= k < |items| ==> r.0[k] == Attach(items[k], targets, canView, store).0
    ensures r.1 <==> exists k :: 0 <= k < |items| && Attach(items[k], targets, canView, store).1
  {
    if |items| == 0 then ([], false)
    else
      var (front, rekey) := Attached(items[..|items| - 1], targets, canView, store);
      var (last, emptied) := Attach(items[|items| - 1], targets, canView, store);
      assert forall k :: 0 <= k < |items| - 1 ==> items[..|items| - 1][k] == items[k];
      (front + [last], rekey || emptied)
  }

  /** One list after prepareView(): re-keyed exactly when an item was
      emptied. */
  function Prepared(items: seq<ViewItem>, targets: map<string, map<string, Entity>>, canView: Entity -> bool,
                    store: Store): seq<ViewItem>
  {
    var (attached, rekey) := Attached(items, targets, canView, store);
    if rekey then FilterEmpty(attached) else attached
  }

  /** A list none of whose items loses its target keeps every item in
      place, each with its target attached. */
  lemma NothingMissingKeepsPlaces(items: seq<ViewItem>, targets: map<string, map<string, Entity>>,
                                  canView: Entity -> bool, store: Store)
    requires forall k :: 0 <= k < |items| ==> Autocreate(items[k]) || Found(items[k], targets).Some?
    ensures var r := Prepared(items, targets, canView, store);
      |r| == |items| && forall k :: 0 <= k < |items| ==> r[k] == Attach(items[k], targets, canView, store).0
  {
  }

  /** An item whose target is gone is not shown: the list is re-keyed and
      holds only non-empty items. */
  lemma MissingTargetIsDropped(items: seq<ViewItem>, targets: map<string, map<string, Entity>>,
                               canView: Entity -> bool, store: Store, k: nat)
    requires k < |items| && !Autocreate(items[k]) && Found(items[k], targets).None?
    ensures var r := Prepared(items, targets, canView, store);
      Attached(items, targets, canView, store).1 && forall j :: 0 <= j < |r| ==> !Empty(r[j])
  {
  }

  /** End to end: an item queued by its target id, whose target loads,
      keeps its place-holding target and is shown with it. */
  lemma LoadedTargetIsAttached(lists: seq<seq<ViewItem>>, store: Store, revisions: RevisionStore,
                               canView: Entity -> bool, v: ViewItem, e: Entity)
    requires v in Concat(lists) && IdQueued(v) && !Autocreate(v)
    requires Load(store, v.item.targetType, v.item.targetId.value) == Some(e)
    requires RevisionsLoad(revisions, Collected(Concat(lists)))
    requires v.item.targetType.value !in Collected(Concat(lists)).revisions
    ensures var r := Attach(v, TargetEntities(store, revisions, Collected(Concat(lists))), canView, store);
      !r.1 && r.0.item.entity.target == Some(e) && r.0.accessible == (v.accessible || canView(e))
  {
    var items := Concat(lists);
    var q := Collected(items);
    var t := v.item.targetType.value;
    var x := v.item.targetId.value;
    var k :| 0 <= k < |items| && items[k] == v;
    IdsCollected(items, t, x);
    assert x in Queue(q.ids, t);
    assert Identifier(v) == Key(x);
    assert Key(x) in LoadKeys(store, t, q.ids[t]);
  }

  /** The second loop over the items of one list. */
  method AttachList(items: seq<ViewItem>, targets: map<string, map<string, Entity>>, canView: Entity -> bool,
                    store: Store) returns (attached: seq<ViewItem>, rekey: bool)
    ensures (attached, rekey) == Attached(items, targets, canView, store)
  {
    attached, rekey := [], false;
    var i := 0;
    while i < |items|
      invariant i <= |items| && (attached, rekey) == Attached(items[..i], targets, canView, store)
    {
      assert items[..i + 1][..i] == items[..i];
      var (item, emptied) := Attach(items[i], targets, canView, store);
      attached := attached + [item];
      rekey := rekey || emptied;
      i := i + 1;
    }
    assert items[..i] == items;
  }

  /** The second loop, list by list, once the targets are loaded. */
  method PrepareLists(lists: seq<seq<ViewItem>>, targets: map<string, map<string, Entity>>, canView: Entity -> bool,
                      store: Store) returns (out: seq<seq<ViewItem>>)
    ensures |out| == |lists| && forall n :: 0 <= n < |lists| ==> out[n] == Prepared(lists[n], targets, canView, store)
  {
    out := [];
    var n := 0;
    while n < |lists|
      invariant n <= |lists| && |out| == n
      invariant forall m :: 0 <= m < n ==> out[m] == Prepared(lists[m], targets, canView, store)
    {
      var attached, rekey := AttachList(lists[n], targets, canView, store);
      if rekey {
        attached := FilterEmpty(attached);
      }
      out := out + [attached];
      n := n + 1;
    }
  }

  /** prepareView() on the item lists of the host entities: the lists as
      they are left, or the method call on NULL a missing revision causes. */
  method PrepareView(lists: seq<seq<ViewItem>>, store: Store, revisions: RevisionStore, canView: Entity -> bool)
    returns (r: Result<seq<seq<ViewItem>>>)
    ensures r.Ok? <==> RevisionsLoad(revisions, Collected(Concat(lists)))
    ensures r.Err? ==> r == Err(NullDereference("target_entity"))
    ensures r.Ok? ==> |r.value| == |lists| && forall n :: 0 <= n < |lists| ==>
      r.value[n] == Prepared(lists[n], TargetEntities(store, revisions, Collected(Concat(lists))), canView, store)
  {
    var q := Collect(lists);
    var loaded := LoadTargets(store, revisions, q);
    if loaded.Err? {
      return Err(loaded.error);
    }
    var out := PrepareLists(lists, loaded.value, canView, store);
    r := Ok(out);
  }
}
