/** The older revision of the 'entity' property of a dynamic entity
    reference item. Unlike the current one it never changes the entity
    type of its target definition: it loads lazily by the parent item's
    target_type and exposes the target id and the target's label. */
module LegacyDynamicEntityReference {
  import opened Wrappers
  import opened Entities

  /** A value handed to setValue(): NULL, an entity object, a scalar id, or
      anything else (an array, a non-entity object). */
  datatype Value = NullValue | EntityValue(entity: Entity) | ScalarValue(id: Id) | NonScalarValue

  const InvalidValue := "Value is not a valid entity."

  /** The reference's mutable fields: the cached target and the id. */
  datatype State = State(target: Option<Entity>, id: Option<Id>)

  /** setValue() on the fields, given the entity type of the target
      definition: NULL or an entity becomes the target; a scalar becomes
      the id when the definition has a type; anything else throws. */
  function AfterSetValue(s: State, definitionType: Option<string>, value: Value): (r: (State, Outcome))
    ensures r.1.Fail? <==> value.NonScalarValue? || (value.ScalarValue? && definitionType.None?)
    ensures r.1.Fail? ==> r.1 == Fail(InvalidArgument(InvalidValue))
    ensures r.0.target == if value.EntityValue? then Some(value.entity) else None
    ensures r.0.id == if value.ScalarValue? && r.1.Pass? then Some(value.id) else None
  {
    match value
    case NullValue => (State(None, None), Pass)
    case EntityValue(e) => (State(Some(e), None), Pass)
    case NonScalarValue => (State(None, None), Fail(InvalidArgument(InvalidValue)))
    case ScalarValue(i) =>
      if definitionType.None? then (State(None, None), Fail(InvalidArgument(InvalidValue)))
      else (State(None, Some(i)), Pass)
  }

  /** getTarget() (and getValue(), which is the same call): loads by the
      parent's target_type only when no target is held and an id is. */
  function AfterGetTarget(s: State, store: Store, parentTargetType: Option<string>): (r: (State, Option<Entity>))
    ensures r.1 == r.0.target && r.0.id == s.id
    ensures s.target.Some? || s.id.None? ==> r.0 == s
    ensures s.target.None? && s.id.Some? ==> r.1 == Load(store, parentTargetType, s.id.value)
  {
    var target := if s.target.None? && s.id.Some? then Load(store, parentTargetType, s.id.value) else s.target;
    (State(target, s.id), target)
  }

  /** getTargetIdentifier(): the id when one is held, else the held
      target's id, else nothing. Without an id getTarget() does not load,
      so this reads the fields only. */
  function TargetIdentifier(s: State): (r: Option<Id>)
    ensures s.id.Some? ==> r == s.id
    ensures s.id.None? && s.target.None? ==> r.None?
    ensures s.id.None? && s.target.Some? ==> r == s.target.value.id
  {
    if s.id.Some? then s.id
    else if s.target.Some? then s.target.value.id
    else None
  }

  /** getString(): the label of the target getValue() yields, or ''. */
  function AfterGetString(s: State, store: Store, parentTargetType: Option<string>): (r: (State, string))
    ensures var loaded := AfterGetTarget(s, store, parentTargetType);
      r.0 == loaded.0 && r.1 == (if loaded.1.Some? then loaded.1.value.labelText else "")
  {
    var (s', target) := AfterGetTarget(s, store, parentTargetType);
    (s', if target.Some? then target.value.labelText else "")
  }

  /** No stale state survives setValue(): what it leaves does not depend on
      the old target or id. */
  lemma SetValueForgets(s1: State, s2: State, definitionType: Option<string>, value: Value)
    ensures AfterSetValue(s1, definitionType, value) == AfterSetValue(s2, definitionType, value)
  {
  }

  /** Once loaded, the target is cached: later calls return it whatever
      the storage or the parent's type then say. */
  lemma GetTargetCaches(s: State, store: Store, parentTargetType: Option<string>, laterStore: Store,
                        laterParentType: Option<string>)
    requires AfterGetTarget(s, store, parentTargetType).1.Some?
    ensures var first := AfterGetTarget(s, store, parentTargetType);
      AfterGetTarget(first.0, laterStore, laterParentType) == first
  {
  }

  /** A load that found nothing keeps the id and leaves no target, so the
      next call loads again. */
  lemma GetTargetRetries(s: State, store: Store, parentTargetType: Option<string>, laterStore: Store)
    requires s.target.None? && s.id.Some?
    requires AfterGetTarget(s, store, parentTargetType).1.None?
    ensures var first := AfterGetTarget(s, store, parentTargetType);
      first.0 == s && AfterGetTarget(first.0, laterStore, parentTargetType).1 == Load(laterStore, parentTargetType, s.id.value)
  {
  }

  /** After setValue() the identifier is the id given, or the id of the
      entity given, and nothing after NULL. */
  lemma IdentifierAfterSetValue(s: State, definitionType: Option<string>, value: Value)
    requires AfterSetValue(s, definitionType, value).1.Pass?
    ensures var r := TargetIdentifier(AfterSetValue(s, definitionType, value).0);
      r == match value
           case ScalarValue(i) => Some(i)
           case EntityValue(e) => e.id
           case _ => None
  {
  }

  /** An entity set as the value gives its own label, whatever the storage
      holds; NULL gives ''. */
  lemma StringAfterSetValue(s: State, definitionType: Option<string>, value: Value, store: Store,
                            parentTargetType: Option<string>)
    requires value.EntityValue? || value.NullValue?
    ensures var r := AfterGetString(AfterSetValue(s, definitionType, value).0, store, parentTargetType).1;
      r == if value.EntityValue? then value.entity.labelText else ""
  {
  }

  class DynamicEntityReference {
    var target: Option<Entity>
    var id: Option<Id>
    /** The entity type of the target definition (None for NULL). */
    const definitionType: Option<string>
    /** The property name under the parent item. */
    const name: string
    const hasParent: bool
    /** The names the parent's onChange() was called with, in order. */
    var notices: seq<string>

    function Fields(): State
      reads this
    {
      State(target, id)
    }

    constructor (name: string, hasParent: bool, definitionType: Option<string>)
      ensures Fields() == State(None, None) && notices == []
      ensures this.name == name && this.hasParent == hasParent && this.definitionType == definitionType
    {
      this.name := name;
      this.hasParent := hasParent;
      this.definitionType := definitionType;
      target := None;
      id := None;
      notices := [];
    }

    /** setValue(); the parent is told of the change when notify holds and
        there is a parent. */
    method SetValue(value: Value, notify: bool) returns (o: Outcome)
      modifies this
      ensures (Fields(), o) == AfterSetValue(old(Fields()), definitionType, value)
      ensures notices == old(notices) + if o.Pass? && notify && hasParent then [name] else []
    {
      target := None;
      id := None;
      match value {
        case NullValue =>
          target := None;
        case EntityValue(e) =>
          target := Some(e);
        case NonScalarValue =>
          return Fail(InvalidArgument(InvalidValue));
        case ScalarValue(i) =>
          if definitionType.None? {
            return Fail(InvalidArgument(InvalidValue));
          }
          id := Some(i);
      }
      if notify && hasParent {
        notices := notices + [name];
      }
      o := Pass;
    }

    /** getTarget(), with the storage and the parent's target_type. */
    method GetTarget(store: Store, parentTargetType: Option<string>) returns (r: Option<Entity>)
      modifies this
      ensures (Fields(), r) == AfterGetTarget(old(Fields()), store, parentTargetType)
      ensures notices == old(notices)
    {
      if target.None? && id.Some? {
        target := Load(store, parentTargetType, id.value);
      }
      r := target;
    }

    /** getValue(): exactly getTarget(). */
    method GetValue(store: Store, parentTargetType: Option<string>) returns (r: Option<Entity>)
      modifies this
      ensures (Fields(), r) == AfterGetTarget(old(Fields()), store, parentTargetType)
      ensures notices == old(notices)
    {
      r := GetTarget(store, parentTargetType);
    }

    /** getTargetIdentifier(). */
    function GetTargetIdentifier(): (r: Option<Id>)
      reads this
      ensures r == TargetIdentifier(Fields())
    {
      if id.Some? then id else if target.Some? then target.value.id else None
    }

    /** getString(): loads through getValue() when it has to. */
    method GetString(store: Store, parentTargetType: Option<string>) returns (r: string)
      modifies this
      ensures (Fields(), r) == AfterGetString(old(Fields()), store, parentTargetType)
      ensures notices == old(notices)
    {
      var entity := GetValue(store, parentTargetType);
      r := if entity.Some? then entity.value.labelText else "";
    }
  }
}
