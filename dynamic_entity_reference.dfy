/** The 'entity' property of a dynamic entity reference item: a typed-data
    reference that holds either the target entity or only its id, loads the
    target lazily and caches it, and keeps the entity type of its target
    definition in step with the target it holds. */
module DynamicEntityReference {
  import opened Wrappers
  import opened Entities

  /** A value handed to setValue(): NULL, an entity object, a scalar id, or
      anything else (an array, a non-entity object). */
  datatype Value = NullValue | EntityValue(entity: Entity) | ScalarValue(id: Id) | NonScalarValue

  const InvalidValue := "Value is not a valid entity."

  /** The reference's fields: the cached target, the id, and the entity
      type of the target definition (None for NULL). */
  datatype State = State(target: Option<Entity>, id: Option<Id>, definitionType: Option<string>)

  /** Whenever a target is held, the target definition names its type. */
  predicate InSync(s: State)
  {
    s.target.Some? ==> s.definitionType == Some(s.target.value.entityType)
  }

  /** setValue() on the fields: both are unset first; NULL leaves no target,
      an entity becomes the target and gives the definition its type, and a
      scalar becomes the id when the definition has a type; anything else
      throws. */
  function AfterSetValue(s: State, value: Value): (r: (State, Outcome))
    ensures r.1.Fail? <==> value.NonScalarValue? || (value.ScalarValue? && s.definitionType.None?)
    ensures r.1.Fail? ==> r.1 == Fail(InvalidArgument(InvalidValue))
    ensures r.0.target == if value.EntityValue? then Some(value.entity) else None
    ensures r.0.id == if value.ScalarValue? && r.1.Pass? then Some(value.id) else None
    ensures InSync(r.0)
  {
    match value
    case NullValue => (State(None, None, s.definitionType), Pass)
    case EntityValue(e) => (State(Some(e), None, Some(e.entityType)), Pass)
    case NonScalarValue => (State(None, None, s.definitionType), Fail(InvalidArgument(InvalidValue)))
    case ScalarValue(i) =>
      if s.definitionType.None? then (State(None, None, s.definitionType), Fail(InvalidArgument(InvalidValue)))
      else (State(None, Some(i), s.definitionType), Pass)
  }

  /** The type a lazy load uses: the definition's, or, when that is falsy,
      the parent item's target_type. */
  function LoadType(s: State, parentTargetType: Option<string>): Option<string>
  {
    if EmptyString(s.definitionType) then parentTargetType else s.definitionType
  }

  /** getTarget(): loads only when no target is held and an id is; a load
      that finds nothing leaves no target; a held target gives the
      definition its type. */
  function AfterGetTarget(s: State, store: Store, parentTargetType: Option<string>): (r: (State, Option<Entity>))
    ensures r.1 == r.0.target && r.0.id == s.id
    ensures s.target.Some? ==> r.0.target == s.target
    ensures s.target.None? && s.id.None? ==> r.0.target == None
    ensures s.target.None? && s.id.Some? ==> r.0.target == Load(store, LoadType(s, parentTargetType), s.id.value)
    ensures InSync(r.0)
    ensures r.0.target.None? ==> r.0.definitionType == s.definitionType
  {
    var target := if s.target.None? && s.id.Some? then Load(store, LoadType(s, parentTargetType), s.id.value) else s.target;
    var definitionType := if target.Some? then Some(target.value.entityType) else s.definitionType;
    (State(target, s.id, definitionType), target)
  }

  /** No stale state survives setValue(): what it leaves depends only on
      the value and the definition's type, not on the old target or id. */
  lemma SetValueForgets(s1: State, s2: State, value: Value)
    requires s1.definitionType == s2.definitionType
    ensures AfterSetValue(s1, value) == AfterSetValue(s2, value)
  {
  }

  /** Once loaded, the target is cached: a second getTarget() returns it
      without consulting the storage again. */
  lemma GetTargetCaches(s: State, store: Store, parentTargetType: Option<string>, laterStore: Store,
                        laterParentType: Option<string>)
    requires AfterGetTarget(s, store, parentTargetType).1.Some?
    ensures var first := AfterGetTarget(s, store, parentTargetType);
      AfterGetTarget(first.0, laterStore, laterParentType) == first
  {
  }

  /** A load that found nothing keeps the id, so a later getTarget() tries
      again, and finds the entity once the storage has it. */
  lemma GetTargetRetries(s: State, store: Store, parentTargetType: Option<string>, laterStore: Store)
    requires s.target.None? && s.id.Some?
    requires AfterGetTarget(s, store, parentTargetType).1.None?
    ensures var first := AfterGetTarget(s, store, parentTargetType);
      first.0 == s &&
      AfterGetTarget(first.0, laterStore, parentTargetType).1 == Load(laterStore, LoadType(s, parentTargetType), s.id.value)
  {
  }

  /** An entity set as the value is what getTarget() returns, whatever the
      storage holds. */
  lemma SetEntityThenGet(s: State, e: Entity, store: Store, parentTargetType: Option<string>)
    ensures var stored := AfterSetValue(s, EntityValue(e));
      AfterGetTarget(stored.0, store, parentTargetType).1 == Some(e)
  {
  }

  /** An id set as the value is loaded, by the definition's type, on the
      first getTarget(). */
  lemma SetIdThenGet(s: State, id: Id, store: Store, parentTargetType: Option<string>)
    requires s.definitionType.Some? && !EmptyString(s.definitionType)
    ensures var stored := AfterSetValue(s, ScalarValue(id));
      stored.1.Pass? && AfterGetTarget(stored.0, store, parentTargetType).1 == Load(store, s.definitionType, id)
  {
  }

  class DynamicEntityReference {
    var target: Option<Entity>
    var id: Option<Id>
    /** The entity type of the target definition (None for NULL). */
    var definitionType: Option<string>
    /** The property name under the parent item. */
    const name: string
    const hasParent: bool
    /** The names the parent's onChange() was called with, in order. */
    var notices: seq<string>

    function Fields(): State
      reads this
    {
      State(target, id, definitionType)
    }

    constructor (name: string, hasParent: bool, definitionType: Option<string>)
      ensures Fields() == State(None, None, definitionType) && InSync(Fields())
      ensures this.name == name && this.hasParent == hasParent && notices == []
    {
      this.name := name;
      this.hasParent := hasParent;
      this.definitionType := definitionType;
      target := None;
      id := None;
      notices := [];
    }

    /** setValue(); the parent is told of the change when notify holds and
        there is a parent. */
    method SetValue(value: Value, notify: bool) returns (o: Outcome)
      modifies this
      ensures (Fields(), o) == AfterSetValue(old(Fields()), value)
      ensures notices == old(notices) + if o.Pass? && notify && hasParent then [name] else []
    {
      target := None;
      id := None;
      match value {
        case NullValue =>
          target := None;
        case EntityValue(e) =>
          target := Some(e);
          definitionType := Some(e.entityType);
        case NonScalarValue =>
          return Fail(InvalidArgument(InvalidValue));
        case ScalarValue(i) =>
          if definitionType.None? {
            return Fail(InvalidArgument(InvalidValue));
          }
          id := Some(i);
      }
      if notify && hasParent {
        notices := notices + [name];
      }
      o := Pass;
    }

    /** getTarget(), with the storage and the parent's target_type. */
    method GetTarget(store: Store, parentTargetType: Option<string>) returns (r: Option<Entity>)
      modifies this
      ensures (Fields(), r) == AfterGetTarget(old(Fields()), store, parentTargetType)
      ensures notices == old(notices)
    {
      if target.None? && id.Some? {
        var loadType := if EmptyString(definitionType) then parentTargetType else definitionType;
        target := Load(store, loadType, id.value);
      }
      if target.Some? {
        definitionType := Some(target.value.entityType);
      }
      r := target;
    }
  }
}
