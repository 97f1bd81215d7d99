/** Entities as the reference code sees them, the entity storage it loads
    them from, and the PHP value semantics it relies on for ids. */
module Entities {
  import opened Wrappers
  import opened Strings

  /** An entity id: an integer for integer-id entity types, a string
      otherwise. */
  datatype Id = IntId(n: int) | StrId(s: string)

  /** The array key PHP files an id under: integers (and decimal strings)
      by their decimal text. */
  function Key(id: Id): string
  {
    match id
    case IntId(n) => IntToString(n)
    case StrId(s) => s
  }

  /** A possibly NULL id interpolated into a string: its decimal or string
      form, '' for NULL. */
  function IdText(id: Option<Id>): string
  {
    if id.Some? then Key(id.value) else ""
  }

  /** PHP's loose == on two ids, as the model approximates it: equal keys. */
  predicate LooseEquals(a: Id, b: Id)
  {
    Key(a) == Key(b)
  }

  /** PHP's empty() on an id that may be NULL: NULL, 0, "" and "0". */
  predicate EmptyId(id: Option<Id>)
  {
    id.None? || id.value == IntId(0) || id.value == StrId("") || id.value == StrId("0")
  }

  /** PHP's empty() on a string that may be NULL. */
  predicate EmptyString(s: Option<string>)
  {
    s.None? || s.value == "" || s.value == "0"
  }

  lemma EmptyIdMeaning(id: Option<Id>)
    ensures EmptyId(id) <==> id.None? || Key(id.value) == "" || Key(id.value) == "0"
  {
    if id.Some? && id.value.IntId? && id.value.n != 0 {
      var n := id.value.n;
      if n < 0 {
        assert Key(id.value)[0] == '-';
      } else {
        assert n >= 10 ==> |NatToString(n)| >= 2 by {
          if n >= 10 { assert NatToString(n) == NatToString(n / 10) + [DigitChar(n % 10)]; }
        }
        assert n < 10 ==> NatToString(n) == [DigitChar(n)];
      }
    }
  }

  /** An entity: its type, its id (none before it is first saved), its
      uuid and label, and whether it is new. */
  datatype Entity = Entity(entityType: string, id: Option<Id>, uuid: string, labelText: string, isNew: bool)

  /** The entity storage of every type: type, then id key, to entity. */
  type Store = map<string, map<string, Entity>>

  /** A store files every entity under its own type and id. */
  ghost predicate Coherent(store: Store)
  {
    forall t, k :: t in store && k in store[t] ==>
      store[t][k].entityType == t && store[t][k].id.Some? && Key(store[t][k].id.value) == k && !store[t][k].isNew
  }

  /** entity_load(type, id) / getStorage(type)->load(id). A type the store
      does not know loads nothing. */
  function Load(store: Store, entityType: Option<string>, id: Id): (r: Option<Entity>)
    ensures r.Some? ==> entityType.Some? && entityType.value in store && Key(id) in store[entityType.value]
    ensures r.Some? && Coherent(store) ==>
      r.value.entityType == entityType.value && r.value.id.Some? && LooseEquals(r.value.id.value, id)
  {
    if entityType.Some? && entityType.value in store && Key(id) in store[entityType.value]
    then Some(store[entityType.value][Key(id)]) else None
  }

  /** $entity->save() on a new entity: it gets the given id and stops being
      new. */
  function Saved(e: Entity, newId: Id): (r: Entity)
    ensures r.entityType == e.entityType && r.id == Some(newId) && !r.isNew
    ensures r.uuid == e.uuid && r.labelText == e.labelText
  {
    e.(id := Some(newId), isNew := false)
  }
}
