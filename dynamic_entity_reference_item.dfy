/** The dynamic entity reference field item: which entity types a field
    may reference, how a value assigned to an item is spread over its
    target_id, target_type and entity properties (and when that throws),
    and how preSave() writes a newly created target back. */
module DynamicEntityReferenceItem {
  import opened Wrappers
  import opened Entities
  import R = DynamicEntityReference

  // ---------------------------------------------------------------------
  // Referenceable entity types
  // ---------------------------------------------------------------------

  /** The storage settings getTargetTypes() reads: whether the listed types
      are excluded (TRUE) or the only ones included (FALSE), and the keys of
      entity_type_ids (None when the setting is NULL). */
  datatype StorageSettings = StorageSettings(excludeEntityTypes: bool, entityTypeIds: Option<set<string>>)

  /** defaultStorageSettings(): exclude nothing. */
  function DefaultStorageSettings(): StorageSettings
  {
    StorageSettings(true, Some({}))
  }

  /** The listed entity types, with a NULL setting read as none. */
  function Listed(settings: StorageSettings): set<string>
  {
    if settings.entityTypeIds.Some? then settings.entityTypeIds.value else {}
  }

  /** getTargetTypes(): the registry's content entity types (id to label)
      minus the listed ones when excluding, restricted to them otherwise. */
  function TargetTypes(content: map<string, string>, settings: StorageSettings): (r: map<string, string>)
    ensures forall t :: t in r <==> t in content && (settings.excludeEntityTypes <==> t !in Listed(settings))
    ensures forall t :: t in r ==> r[t] == content[t]
  {
    if settings.excludeEntityTypes then map t | t in content && t !in Listed(settings) :: content[t]
    else map t | t in content && t in Listed(settings) :: content[t]
  }

  /** The same list, once excluded and once included, splits the registry
      in two: the results are disjoint and together are the registry. */
  lemma IncludeExcludePartition(content: map<string, string>, listed: Option<set<string>>)
    ensures var excluded := TargetTypes(content, StorageSettings(true, listed));
      var included := TargetTypes(content, StorageSettings(false, listed));
      excluded.Keys !! included.Keys && excluded.Keys + included.Keys == content.Keys
  {
    var excluded := TargetTypes(content, StorageSettings(true, listed));
    var included := TargetTypes(content, StorageSettings(false, listed));
    assert excluded.Keys + included.Keys == content.Keys by {
      forall t | t in content
        ensures t in excluded.Keys + included.Keys
      {
        if t in Listed(StorageSettings(true, listed)) { assert t in included; } else { assert t in excluded; }
      }
    }
  }

  /** An empty or NULL list references everything when excluding and
      nothing when including. */
  lemma EmptyListExtremes(content: map<string, string>, exclude: bool, listed: Option<set<string>>)
    requires listed.None? || listed == Some({})
    ensures TargetTypes(content, StorageSettings(exclude, listed)) == if exclude then content else map[]
  {
    var r := TargetTypes(content, StorageSettings(exclude, listed));
    if exclude {
      assert r.Keys == content.Keys;
    } else {
      assert r.Keys == {};
    }
  }

  /** By default every content entity type is referenceable. */
  lemma DefaultReferencesEverything(content: map<string, string>)
    ensures TargetTypes(content, DefaultStorageSettings()) == content
  {
    EmptyListExtremes(content, true, Some({}));
  }

  /** mainPropertyName(): NULL, since target_type and target_id are both
      main properties. */
  function MainPropertyName(): (r: Option<string>)
    ensures r.None?
  {
    None
  }

  // ---------------------------------------------------------------------
  // Item values
  // ---------------------------------------------------------------------

  /** NEW_ENTITY_MARKER: the target_id of an item whose entity is not yet
      saved. */
  const NewEntityMarker := IntId(-1)

  const NoEntityType := "No entity type was provided, value is not a valid entity."
  const Mismatch := "The target id, target type and entity passed to the dynamic entity reference item do not match."

  /** The item's properties: target_id, target_type, and the entity
      property (the data type of the DynamicEntityReference module). */
  datatype Item = Item(targetId: Option<Id>, targetType: Option<string>, entity: R.State)

  datatype Property = TargetIdProperty | TargetTypeProperty | EntityProperty

  /** A value handed to the item's setValue(): NULL, a scalar id, an entity
      object, some other object, or an array of property values. */
  datatype ItemValue =
    | NullItem
    | ScalarItem(id: Id)
    | EntityItem(e: Entity)
    | OtherObject
    | ArrayItem(targetId: Option<Id>, targetType: Option<string>, entity: Option<Entity>)

  /** PHP's loose == between a possibly NULL id and an id: NULL equals 0
      and ''; two ids as the Entities module approximates them. */
  predicate LooseEqualsOptional(a: Option<Id>, b: Id)
  {
    if a.None? then b == IntId(0) || b == StrId("") else LooseEquals(a.value, b)
  }

  /** PHP's loose == between a type name and a possibly NULL one. */
  predicate LooseEqualsType(a: string, b: Option<string>)
  {
    if b.None? then a == "" else a == b.value
  }

  /** The check of setValue() when both target_id and entity are given: the
      pair must agree with the entity, unless target_id is the new-entity
      marker and the entity is new. */
  predicate Mismatched(targetId: Id, targetType: Option<string>, e: Entity)
  {
    (!LooseEqualsOptional(e.id, targetId) || !LooseEqualsType(e.entityType, targetType)) &&
    (!LooseEquals(targetId, NewEntityMarker) || !e.isNew)
  }

  /** onChange() for one property, with the inherited entity-reference
      synchronisation: target_type gives an empty entity property its
      definition type; entity writes the target's type and its id (the
      marker for a new target) back, and fails on an empty entity property;
      target_id is written into the entity property. */
  function AfterOnChange(item: Item, p: Property, store: Store): (r: (Item, Outcome))
    ensures p.TargetTypeProperty? ==> r.1.Pass? && r.0.targetId == item.targetId && r.0.targetType == item.targetType
    ensures p.TargetTypeProperty? ==>
      var loaded := R.AfterGetTarget(item.entity, store, item.targetType);
      r.0.entity == if loaded.1.None? then loaded.0.(definitionType := item.targetType) else loaded.0
    ensures p.EntityProperty? ==> (r.1.Pass? <==> R.AfterGetTarget(item.entity, store, item.targetType).1.Some?)
    ensures p.EntityProperty? ==> r.0.entity == R.AfterGetTarget(item.entity, store, item.targetType).0
    ensures p.EntityProperty? && r.1.Fail? ==> r.1 == Fail(NullDereference("entity")) && r.0.targetId == item.targetId
    ensures p.EntityProperty? && r.1.Pass? ==>
      var e := r.0.entity.target.value;
      r.0.targetType == Some(e.entityType) &&
      r.0.targetId == (if e.isNew then Some(NewEntityMarker) else if item.entity.id.Some? then item.entity.id else e.id)
    ensures p.TargetIdProperty? ==> r.0.targetId == item.targetId && r.0.targetType == item.targetType
    ensures p.TargetIdProperty? ==>
      (r.0.entity, r.1) == R.AfterSetValue(item.entity, if item.targetId.Some? then R.ScalarValue(item.targetId.value) else R.NullValue)
  {
    match p
    case TargetTypeProperty =>
      var (loaded, value) := R.AfterGetTarget(item.entity, store, item.targetType);
      (item.(entity := if value.None? then loaded.(definitionType := item.targetType) else loaded), Pass)
    case EntityProperty =>
      var (loaded, value) := R.AfterGetTarget(item.entity, store, item.targetType);
      if value.None? then (item.(entity := loaded), Fail(NullDereference("entity")))
      else
        var e := value.value;
        var targetId := if e.isNew then Some(NewEntityMarker) else if loaded.id.Some? then loaded.id else e.id;
        (Item(targetId, Some(e.entityType), loaded), Pass)
    case TargetIdProperty =>
      var (entity, o) := R.AfterSetValue(item.entity, if item.targetId.Some? then R.ScalarValue(item.targetId.value) else R.NullValue);
      (item.(entity := entity), o)
  }

  /** The value a non-array setValue() hands to the entity property. */
  function EntityValueOf(value: ItemValue): R.Value
    requires value.ScalarItem? || value.EntityItem? || value.OtherObject?
  {
    match value
    case ScalarItem(i) => R.ScalarValue(i)
    case EntityItem(e) => R.EntityValue(e)
    case OtherObject => R.NonScalarValue
  }

  /** The array form of a value: NULL is the empty array. */
  function Fields(value: ItemValue): (Option<Id>, Option<string>, Option<Entity>)
    requires value.NullItem? || value.ArrayItem?
  {
    if value.NullItem? then (None, None, None) else (value.targetId, value.targetType, value.entity)
  }

  /** The array branch of setValue() once the untyped-id check has passed:
      the values are stored, then whichever properties were given are
      synchronised or checked against each other. */
  function SetFields(item: Item, targetId: Option<Id>, targetType: Option<string>, entity: Option<Entity>,
                     store: Store): (r: (Item, Outcome))
    ensures targetId.Some? && entity.Some? ==>
      r.0 == Item(targetId, targetType, R.State(entity, None, Some(entity.value.entityType))) &&
      (r.1.Pass? <==> !Mismatched(targetId.value, targetType, entity.value)) &&
      (r.1.Fail? ==> r.1 == Fail(InvalidArgument(Mismatch)))
    ensures targetId.None? && entity.None? ==>
      r == (Item(None, targetType, R.State(None, None, item.entity.definitionType)), Pass)
  {
    var stored := Item(targetId, targetType, R.AfterSetValue(item.entity, if entity.Some? then R.EntityValue(entity.value) else R.NullValue).0);
    if targetId.Some? && entity.None? then
      var (typed, o) := AfterOnChange(stored, TargetTypeProperty, store);
      if o.Fail? then (typed, o) else AfterOnChange(typed, TargetIdProperty, store)
    else if targetId.None? && entity.Some? then
      AfterOnChange(stored, EntityProperty, store)
    else if targetId.Some? && entity.Some? then
      if Mismatched(targetId.value, targetType, entity.value) then (stored, Fail(InvalidArgument(Mismatch))) else (stored, Pass)
    else
      (stored, Pass)
  }

  /** setValue(): the new item, the outcome, and whether the item's parent
      was told of the change. A scalar or an object is written to the entity
      property, after which onChange('entity') always runs (notify only
      decides whether the parent hears of it); an array (or NULL) with an
      empty target_type and a non-empty target_id throws before anything is
      stored. */
  function AfterSetValue(item: Item, value: ItemValue, notify: bool, hasParent: bool, store: Store): (r: (Item, Outcome, bool))
    ensures r.2 ==> r.1.Pass? && notify && hasParent
    ensures (value.NullItem? || value.ArrayItem?) && r.1.Pass? ==> r.2 == (notify && hasParent)
    ensures r.1 == Fail(InvalidArgument(NoEntityType)) <==>
      value.ArrayItem? && EmptyString(value.targetType) && !EmptyId(value.targetId)
    ensures r.1 == Fail(InvalidArgument(NoEntityType)) ==> r.0 == item
    ensures value.ScalarItem? || value.EntityItem? || value.OtherObject? ==>
      var (entity, o) := R.AfterSetValue(item.entity, EntityValueOf(value));
      if o.Fail? then r == (item.(entity := entity), o, false)
      else var changed := AfterOnChange(item.(entity := entity), EntityProperty, store);
        r == (changed.0, changed.1, changed.1.Pass? && notify && hasParent)
  {
    if value.ScalarItem? || value.EntityItem? || value.OtherObject? then
      var (entity, o) := R.AfterSetValue(item.entity, EntityValueOf(value));
      if o.Fail? then (item.(entity := entity), o, false)
      else
        var (changed, o') := AfterOnChange(item.(entity := entity), EntityProperty, store);
        (changed, o', o'.Pass? && notify && hasParent)
    else
      var (targetId, targetType, entity) := Fields(value);
      if EmptyString(targetType) && !EmptyId(targetId) then (item, Fail(InvalidArgument(NoEntityType)), false)
      else
        var (stored, o) := SetFields(item, targetId, targetType, entity, store);
        (stored, o, o.Pass? && notify && hasParent)
  }

  /** With both target_id and entity, setValue() succeeds exactly when the
      pair agrees with the entity or is the marker for a new entity, and the
      entity property then holds that entity. */
  lemma BothGivenMustAgree(item: Item, targetId: Id, targetType: Option<string>, e: Entity, notify: bool,
                           hasParent: bool, store: Store)
    requires !EmptyString(targetType) || EmptyId(Some(targetId))
    ensures var r := AfterSetValue(item, ArrayItem(Some(targetId), targetType, Some(e)), notify, hasParent, store);
      (r.1.Pass? <==>
         (LooseEqualsOptional(e.id, targetId) && LooseEqualsType(e.entityType, targetType)) ||
         (LooseEquals(targetId, NewEntityMarker) && e.isNew)) &&
      (r.1.Fail? ==> r.1 == Fail(InvalidArgument(Mismatch))) &&
      r.0.entity.target == Some(e)
  {
  }

  /** With target_id alone, setValue() succeeds exactly when a target_type
      is given; the entity property then holds that id for a lazy load
      under that type. */
  lemma IdOnlyIsLoadedLazily(item: Item, targetId: Id, targetType: Option<string>, notify: bool,
                             hasParent: bool, store: Store)
    requires !EmptyString(targetType) || EmptyId(Some(targetId))
    ensures var r := AfterSetValue(item, ArrayItem(Some(targetId), targetType, None), notify, hasParent, store);
      (r.1.Pass? <==> targetType.Some?) &&
      (r.1.Pass? ==> r.0 == Item(Some(targetId), targetType, R.State(None, Some(targetId), targetType)) &&
                     R.AfterGetTarget(r.0.entity, store, r.0.targetType).1 == Load(store, targetType, targetId))
  {
    var stored := Item(Some(targetId), targetType, R.State(None, None, item.entity.definitionType));
    assert R.AfterSetValue(item.entity, R.NullValue).0 == stored.entity;
    var (typed, o) := AfterOnChange(stored, TargetTypeProperty, store);
    assert typed.entity == R.State(None, None, targetType);
  }

  /** With an entity alone, setValue() always succeeds and takes target_type
      and target_id from the entity (the marker while it is new), whatever
      target_type was given. */
  lemma EntityOnlySetsBoth(item: Item, targetType: Option<string>, e: Entity, notify: bool, hasParent: bool,
                           store: Store)
    ensures var r := AfterSetValue(item, ArrayItem(None, targetType, Some(e)), notify, hasParent, store);
      r == (Item(if e.isNew then Some(NewEntityMarker) else e.id, Some(e.entityType), R.State(Some(e), None, Some(e.entityType))),
            Pass, notify && hasParent)
  {
    var stored := Item(None, targetType, R.State(Some(e), None, Some(e.entityType)));
    assert R.AfterSetValue(item.entity, R.EntityValue(e)).0 == stored.entity;
  }

  /** An entity object assigned to the item (as the item list does for
      `$entity->field = $target`, with notify FALSE) replaces target_type and
      target_id by the entity's own, whether or not the parent is told. */
  lemma EntityValueSetsBoth(item: Item, e: Entity, notify: bool, hasParent: bool, store: Store)
    ensures var r := AfterSetValue(item, EntityItem(e), notify, hasParent, store);
      r == (Item(if e.isNew then Some(NewEntityMarker) else e.id, Some(e.entityType), R.State(Some(e), None, Some(e.entityType))),
            Pass, notify && hasParent)
  {
    var stored := R.AfterSetValue(item.entity, R.EntityValue(e));
    assert stored.0 == R.State(Some(e), None, Some(e.entityType));
  }

  /** A scalar id assigned to the item is loaded at once by onChange('entity')
      under the item's target_type: when it loads, target_type and target_id
      follow the loaded entity; when it does not, the item fails on the
      missing entity with its target_id untouched. */
  lemma ScalarValueLoadsAtOnce(item: Item, id: Id, notify: bool, hasParent: bool, store: Store)
    requires item.entity.definitionType.Some?
    ensures var r := AfterSetValue(item, ScalarItem(id), notify, hasParent, store);
      var found := Load(store, R.LoadType(R.State(None, Some(id), item.entity.definitionType), item.targetType), id);
      (r.1.Pass? <==> found.Some?) &&
      (r.1.Fail? ==> r.1 == Fail(NullDereference("entity")) && r.0.targetId == item.targetId) &&
      (r.1.Pass? ==> r.0.entity.target == found && r.0.targetType == Some(found.value.entityType) &&
                     r.0.targetId == (if found.value.isNew then Some(NewEntityMarker) else Some(id)) &&
                     r.2 == (notify && hasParent))
  {
    var stored := R.AfterSetValue(item.entity, R.ScalarValue(id));
    assert stored.0 == R.State(None, Some(id), item.entity.definitionType);
  }

  /** hasNewEntity(): target_id is exactly the new-entity marker. */
  predicate HasNewEntity(item: Item)
  {
    item.targetId == Some(NewEntityMarker)
  }

  /** preSave(): an item holding a new entity saves it (when still new;
      the storage assigns newId) and copies its id and type into target_id
      and target_type. */
  function AfterPreSave(item: Item, newId: Id, store: Store): (r: (Item, Outcome))
    ensures !HasNewEntity(item) ==> r == (item, Pass)
    ensures HasNewEntity(item) ==>
      var loaded := R.AfterGetTarget(item.entity, store, item.targetType);
      (r.1.Pass? <==> loaded.1.Some?) && (r.1.Fail? ==> r == (item.(entity := loaded.0), Fail(NullDereference("entity"))))
    ensures HasNewEntity(item) && r.1.Pass? ==> r.0.entity.target.Some?
    ensures HasNewEntity(item) && r.1.Pass? ==>
      var e := R.AfterGetTarget(item.entity, store, item.targetType).1.value;
      var saved := r.0.entity.target.value;
      !saved.isNew && saved.entityType == e.entityType &&
      saved.uuid == e.uuid && (e.isNew ==> saved.id == Some(newId)) && (!e.isNew ==> saved == e) &&
      r.0.targetId == saved.id && r.0.targetType == Some(saved.entityType) && R.InSync(r.0.entity)
  {
    if !HasNewEntity(item) then (item, Pass)
    else
      var (loaded, value) := R.AfterGetTarget(item.entity, store, item.targetType);
      if value.None? then (item.(entity := loaded), Fail(NullDereference("entity")))
      else
        var saved := if value.value.isNew then Saved(value.value, newId) else value.value;
        (Item(saved.id, Some(saved.entityType), loaded.(target := Some(saved))), Pass)
  }

  /** After preSave() the item's target_id and target_type agree with its
      entity: handing the three back to setValue() passes its checks (for
      an entity type whose id is not empty()). */
  lemma PreSavedItemIsConsistent(item: Item, newId: Id, store: Store, notify: bool, hasParent: bool)
    requires HasNewEntity(item) && AfterPreSave(item, newId, store).1.Pass?
    ensures var saved := AfterPreSave(item, newId, store).0;
      saved.targetId.Some? && !EmptyString(saved.targetType) ==>
        AfterSetValue(item, ArrayItem(saved.targetId, saved.targetType, saved.entity.target), notify, hasParent, store).1.Pass?
  {
    var saved := AfterPreSave(item, newId, store).0;
    if saved.targetId.Some? && !EmptyString(saved.targetType) {
      var e := saved.entity.target.value;
      assert LooseEqualsOptional(e.id, saved.targetId.value);
      assert LooseEqualsType(e.entityType, saved.targetType);
      BothGivenMustAgree(item, saved.targetId.value, saved.targetType, e, notify, hasParent, store);
    }
  }

  /** The field item, with its properties updated in place. */
  class DynamicEntityReferenceItem {
    var targetId: Option<Id>
    var targetType: Option<string>
    var entity: R.State
    const hasParent: bool
    /** How many times the item's parent was told of a change. */
    var notices: nat

    function Value(): Item
      reads this
    {
      Item(targetId, targetType, entity)
    }

    constructor (hasParent: bool, definitionType: Option<string>)
      ensures Value() == Item(None, None, R.State(None, None, definitionType))
      ensures this.hasParent == hasParent && notices == 0
    {
      this.hasParent := hasParent;
      targetId := None;
      targetType := None;
      entity := R.State(None, None, definitionType);
      notices := 0;
    }

    /** onChange() with notify FALSE. */
    method OnChange(p: Property, store: Store) returns (o: Outcome)
      modifies this
      ensures (Value(), o) == AfterOnChange(old(Value()), p, store)
      ensures notices == old(notices)
    {
      match p {
        case TargetTypeProperty =>
          var value;
          entity, value := R.AfterGetTarget(entity, store, targetType).0, R.AfterGetTarget(entity, store, targetType).1;
          if value.None? {
            entity := entity.(definitionType := targetType);
          }
          o := Pass;
        case EntityProperty =>
          var loaded := R.AfterGetTarget(entity, store, targetType);
          entity := loaded.0;
          if loaded.1.None? {
            return Fail(NullDereference("entity"));
          }
          var e := loaded.1.value;
          targetType := Some(e.entityType);
          targetId := if e.isNew then Some(NewEntityMarker) else if entity.id.Some? then entity.id else e.id;
          o := Pass;
        case TargetIdProperty =>
          var changed := R.AfterSetValue(entity, if targetId.Some? then R.ScalarValue(targetId.value) else R.NullValue);
          entity := changed.0;
          o := changed.1;
      }
    }

    /** setValue(value, notify). */
    method SetValue(value: ItemValue, notify: bool, store: Store) returns (o: Outcome)
      modifies this
      ensures var r := AfterSetValue(old(Value()), value, notify, hasParent, store);
        Value() == r.0 && o == r.1 && notices == old(notices) + (if r.2 then 1 else 0)
    {
      if value.ScalarItem? || value.EntityItem? || value.OtherObject? {
        var changed := R.AfterSetValue(entity, EntityValueOf(value));
        entity := changed.0;
        if changed.1.Fail? {
          return changed.1;
        }
        o := OnChange(EntityProperty, store);
        if o.Pass? && notify && hasParent {
          notices := notices + 1;
        }
        return;
      }
      var (id, typeName, given) := Fields(value);
      if EmptyString(typeName) && !EmptyId(id) {
        return Fail(InvalidArgument(NoEntityType));
      }
      targetId, targetType := id, typeName;
      entity := R.AfterSetValue(entity, if given.Some? then R.EntityValue(given.value) else R.NullValue).0;
      o := Pass;
      if id.Some? && given.None? {
        o := OnChange(TargetTypeProperty, store);
        if o.Pass? {
          o := OnChange(TargetIdProperty, store);
        }
      } else if id.None? && given.Some? {
        o := OnChange(EntityProperty, store);
      } else if id.Some? && given.Some? {
        if Mismatched(id.value, typeName, given.value) {
          o := Fail(InvalidArgument(Mismatch));
        }
      }
      if o.Pass? && notify && hasParent {
        notices := notices + 1;
      }
    }

    /** getValue(): the item's values; a non-empty target_type is also
        written into the entity property's target definition. */
    method GetValue() returns (r: Item)
      modifies this
      ensures r == Value()
      ensures targetId == old(targetId) && targetType == old(targetType) && notices == old(notices)
      ensures entity == if EmptyString(targetType) then old(entity) else old(entity).(definitionType := targetType)
    {
      if !EmptyString(targetType) {
        entity := entity.(definitionType := targetType);
      }
      r := Value();
    }

    /** preSave(), with the id the storage assigns on save. */
    method PreSave(newId: Id, store: Store) returns (o: Outcome)
      modifies this
      ensures (Value(), o) == AfterPreSave(old(Value()), newId, store)
      ensures notices == old(notices)
    {
      if targetId == Some(NewEntityMarker) {
        var loaded := R.AfterGetTarget(entity, store, targetType);
        entity := loaded.0;
        if loaded.1.None? {
          return Fail(NullDereference("entity"));
        }
        var e := loaded.1.value;
        if e.isNew {
          e := Saved(e, newId);
        }
        entity := entity.(target := Some(e));
        targetId := e.id;
        targetType := Some(e.entityType);
      }
      o := Pass;
    }
  }
}
