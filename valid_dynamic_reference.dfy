/** The ValidDynamicReference constraint on a dynamic entity reference
    item: the item's target_type must be one the field may reference, and
    a non-empty target_id must name an entity that loads. */
module ValidDynamicReference {
  import opened Wrappers
  import opened Entities
  import R = DynamicEntityReference
  import I = DynamicEntityReferenceItem

  /** The constraint's violation message, with its %type and %id
      placeholders. */
  const Message := "The referenced entity (%type: %id) does not exist."

  /** A violation added to the validation context: the message and the
      values for %type and %id. */
  datatype Violation = Violation(message: string, typeArg: Option<string>, idArg: Option<Id>)

  /** A target_type is valid when it is not empty and is among the entity
      type ids the field's settings allow. */
  predicate ValidType(targetType: Option<string>, allowed: set<string>)
  {
    !EmptyString(targetType) && targetType.value in allowed
  }

  /** What the item's entity property yields: its target, loaded lazily. */
  function ReferencedEntity(item: I.Item, store: Store): Option<Entity>
  {
    R.AfterGetTarget(item.entity, store, item.targetType).1
  }

  /** validate(): the violations one item adds (value None is NULL). The
      allowed set is what the field's settings give as all entity type
      ids. */
  function Validate(value: Option<I.Item>, allowed: set<string>, store: Store): (r: seq<Violation>)
    ensures |r| <= 1
    ensures value.None? ==> r == []
    ensures value.Some? ==>
      (|r| == 1 <==> !ValidType(value.value.targetType, allowed) ||
                     (!EmptyId(value.value.targetId) && ReferencedEntity(value.value, store).None?))
    ensures |r| == 1 ==> r[0] == Violation(Message, value.value.targetType, value.value.targetId)
  {
    if value.None? then []
    else
      var item := value.value;
      var validType := ValidType(item.targetType, allowed);
      if EmptyId(item.targetId) && validType then []
      else if !validType || ReferencedEntity(item, store).None? then
        [Violation(Message, item.targetType, item.targetId)]
      else []
  }

  /** An empty reference (NULL, 0, '0' or '') of an allowed type is valid,
      whatever its entity property holds. */
  lemma EmptyReferenceIsValid(item: I.Item, allowed: set<string>, store: Store)
    requires EmptyId(item.targetId) && ValidType(item.targetType, allowed)
    ensures Validate(Some(item), allowed, store) == []
  {
  }

  /** An item given an id and an allowed type through setValue() is valid
      exactly when the id loads under that type. */
  lemma SetReferenceValidates(item: I.Item, targetId: Id, targetType: string, allowed: set<string>,
                              notify: bool, hasParent: bool, store: Store)
    requires !EmptyId(Some(targetId)) && ValidType(Some(targetType), allowed)
    ensures var r := I.AfterSetValue(item, I.ArrayItem(Some(targetId), Some(targetType), None), notify, hasParent, store);
      r.1.Pass? &&
      (Validate(Some(r.0), allowed, store) == [] <==> Load(store, Some(targetType), targetId).Some?)
  {
    I.IdOnlyIsLoadedLazily(item, targetId, Some(targetType), notify, hasParent, store);
  }

  /** An entity given through setValue() is valid whenever its type is
      allowed, stored or not: the entity property holds it. */
  lemma SetEntityValidates(item: I.Item, e: Entity, targetType: Option<string>, allowed: set<string>,
                           notify: bool, hasParent: bool, store: Store)
    requires ValidType(Some(e.entityType), allowed)
    ensures var r := I.AfterSetValue(item, I.ArrayItem(None, targetType, Some(e)), notify, hasParent, store);
      Validate(Some(r.0), allowed, store) == []
  {
    I.EntityOnlySetsBoth(item, targetType, e, notify, hasParent, store);
  }

  /** A type the field does not allow is one violation, even for an empty
      id, carrying the given type and id. */
  lemma DisallowedTypeIsReported(item: I.Item, allowed: set<string>, store: Store)
    requires item.targetType.Some? && item.targetType.value !in allowed
    ensures Validate(Some(item), allowed, store) == [Violation(Message, item.targetType, item.targetId)]
  {
  }
}
