/** The subscriber that gives every dynamic entity reference field of an
    entity type its shadow integer columns: it collects, per table, the
    target_id columns of those fields (and of their revision tables), has the
    integer column handler create the missing shadows, and fills the new
    shadows of existing rows with a bulk UPDATE that fires the triggers. */
module FieldStorageSubscriber {
  import opened Wrappers
  import opened Database
  import H = IntColumnHandler
  import P = IntColumnHandlerPostgreSQL

  /** The field type whose fields get shadow columns. */
  const FieldType := "dynamic_entity_reference"

  /** Where the table mapping stores a field: its table, the column of its
      target_id and the column of its target_type. */
  datatype FieldPlace = FieldPlace(table: string, column: string, indexColumn: string)

  /** What the table mapping answers about a field's revision storage:
      a dedicated revision table, shared revision tables, neither, or an
      exception. */
  datatype RevisionStorage =
    | DedicatedRevisionTable(table: string)
    | SharedRevisionTables
    | NoRevisionStorage
    | RevisionLookupFails

  /** A field storage definition, with the table mapping's answers about it
      (place is None when the table or a column lookup throws). */
  datatype FieldDefinition = FieldDefinition(name: string, fieldType: string, revisionable: bool,
                                             place: Option<FieldPlace>, revision: RevisionStorage)

  /** What the entity type manager and the entity field manager report for
      the entity type being handled. */
  datatype EntityTypeInfo = EntityTypeInfo(
    sqlStorage: bool,
    revisionable: bool,
    revisionDataTable: Option<string>,
    revisionTable: string,
    /** The keys of getFieldMapByFieldType()[type], in order. */
    derFields: seq<string>,
    /** getFieldStorageDefinitions(type). */
    definitions: map<string, FieldDefinition>)

  /** The events handled, each with its listener method and priority. */
  datatype Listener = Listener(handler: string, priority: int)

  /** getSubscribedEvents(). */
  function SubscribedEvents(): (r: map<string, seq<Listener>>)
    ensures r.Keys == {"field_storage.definition.create", "entity_type.create"}
    ensures forall e :: e in r ==> |r[e]| == 1 && r[e][0].priority == 100
    ensures r["field_storage.definition.create"][0].handler == "onFieldStorage"
    ensures r["entity_type.create"][0].handler == "onEntityType"
  {
    map["field_storage.definition.create" := [Listener("onFieldStorage", 100)],
        "entity_type.create" := [Listener("onEntityType", 100)]]
  }

  /** The field names handled: the field map's, plus the definition passed
      in when it is of this field type (a new key goes last). */
  function FieldNames(info: EntityTypeInfo, definition: Option<FieldDefinition>): (r: seq<string>)
    ensures forall k :: 0 <= k < |info.derFields| ==> info.derFields[k] in r
    ensures definition.Some? && definition.value.fieldType == FieldType ==> definition.value.name in r
    ensures forall x :: x in r ==>
      (x in info.derFields || (definition.Some? && definition.value.fieldType == FieldType && x == definition.value.name))
  {
    if definition.Some? && definition.value.fieldType == FieldType && definition.value.name !in info.derFields
    then info.derFields + [definition.value.name]
    else info.derFields
  }

  /** The storage definitions the mapping is built from: the definition
      passed in replaces the one known under its name. */
  function Definitions(info: EntityTypeInfo, definition: Option<FieldDefinition>): map<string, FieldDefinition>
  {
    if definition.Some? then info.definitions[definition.value.name := definition.value] else info.definitions
  }

  /** PHP's "?:": the empty string and "0" are falsy. */
  predicate Falsy(s: Option<string>)
  {
    s.None? || s.value == "" || s.value == "0"
  }

  /** getRevisionDataTable() ?: getRevisionTable(). */
  function RevisionTableOf(info: EntityTypeInfo): (r: string)
    ensures !Falsy(info.revisionDataTable) ==> r == info.revisionDataTable.value
    ensures Falsy(info.revisionDataTable) ==> r == info.revisionTable
  {
    if Falsy(info.revisionDataTable) then info.revisionTable else info.revisionDataTable.value
  }

  /** The $tables and $index_columns arrays under construction: the tables
      in insertion order, each table's columns, and each table's index
      columns. */
  datatype Plan = Plan(order: seq<string>, columns: map<string, seq<string>>, indexColumns: map<string, seq<string>>)

  /** Every table is listed once, and has columns and index columns. */
  ghost predicate WellFormed(plan: Plan)
  {
    (forall a, b :: 0 <= a < b < |plan.order| ==> plan.order[a] != plan.order[b]) &&
    (forall t :: t in plan.columns <==> t in plan.order) &&
    (forall t :: t in plan.indexColumns <==> t in plan.order)
  }

  const EmptyPlan := Plan([], map[], map[])

  /** array_unique(): the first occurrence of every value, in order. */
  function Unique(s: seq<string>): (r: seq<string>)
    decreases |s|
    ensures forall x :: x in r <==> x in s
    ensures forall a, b :: 0 <= a < b < |r| ==> r[a] != r[b]
  {
    if s == [] then []
    else
      var u := Unique(s[..|s| - 1]);
      if s[|s| - 1] in u then u
      else
        assert forall x :: x in s <==> x in s[..|s| - 1] || x == s[|s| - 1];
        u + [s[|s| - 1]]
  }

  /** The columns collected so far for a table. */
  function ColumnsOf(plan: Plan, table: string): seq<string>
  {
    if table in plan.columns then plan.columns[table] else []
  }

  /** $tables[table][] = column (deduplicated when unique holds) and
      $index_columns[table] = [indexColumn => ...]. */
  function AddColumn(plan: Plan, table: string, column: string, indexColumn: string, unique: bool): (r: Plan)
    requires WellFormed(plan)
    ensures WellFormed(r)
    ensures r.order == if table in plan.order then plan.order else plan.order + [table]
    ensures r.columns == plan.columns[table := if unique then Unique(ColumnsOf(plan, table) + [column])
                                              else ColumnsOf(plan, table) + [column]]
    ensures r.indexColumns == plan.indexColumns[table := [indexColumn]]
  {
    var columns := ColumnsOf(plan, table) + [column];
    Plan(if table in plan.order then plan.order else plan.order + [table],
         plan.columns[table := if unique then Unique(columns) else columns],
         plan.indexColumns[table := [indexColumn]])
  }

  /** One round of the loop over the field names. */
  function CollectField(info: EntityTypeInfo, defs: map<string, FieldDefinition>, plan: Plan, name: string): (r: Plan)
    requires WellFormed(plan)
    ensures WellFormed(r)
  {
    if name !in defs || defs[name].place.None? then plan
    else
      var def := defs[name];
      var place := def.place.value;
      var main := AddColumn(plan, place.table, place.column, place.indexColumn, false);
      if info.revisionable && def.revisionable then
        match def.revision
        case DedicatedRevisionTable(t) => AddColumn(main, t, place.column, place.indexColumn, false)
        case SharedRevisionTables => AddColumn(main, RevisionTableOf(info), place.column, place.indexColumn, true)
        case _ => main
      else main
  }

  /** The tables a field adds its column to. */
  function TablesOf(info: EntityTypeInfo, defs: map<string, FieldDefinition>, name: string): (r: set<string>)
    ensures |r| <= 2
  {
    if name !in defs || defs[name].place.None? then {}
    else
      var def := defs[name];
      var main := {def.place.value.table};
      if info.revisionable && def.revisionable then
        match def.revision
        case DedicatedRevisionTable(t) => main + {t}
        case SharedRevisionTables => main + {RevisionTableOf(info)}
        case _ => main
      else main
  }

  /** The loop over the field names, from a given state. */
  function Collect(info: EntityTypeInfo, defs: map<string, FieldDefinition>, plan: Plan, names: seq<string>): (r: Plan)
    requires WellFormed(plan)
    ensures WellFormed(r)
    decreases |names|
  {
    if names == [] then plan else Collect(info, defs, CollectField(info, defs, plan, names[0]), names[1..])
  }

  lemma {:induction false} CollectStep(info: EntityTypeInfo, defs: map<string, FieldDefinition>, plan: Plan,
                                       names: seq<string>, i: nat)
    requires WellFormed(plan) && i < |names|
    ensures Collect(info, defs, plan, names[i..]) ==
      Collect(info, defs, CollectField(info, defs, plan, names[i]), names[i + 1..])
  {
    assert names[i..][1..] == names[i + 1..];
  }

  /** Collecting a concatenation collects one part after the other. */
  lemma {:induction false} CollectAppend(info: EntityTypeInfo, defs: map<string, FieldDefinition>, plan: Plan,
                                         a: seq<string>, b: seq<string>)
    requires WellFormed(plan)
    decreases |a|
    ensures Collect(info, defs, plan, a + b) == Collect(info, defs, Collect(info, defs, plan, a), b)
  {
    if a == [] {
      assert a + b == b;
    } else {
      assert (a + b)[1..] == a[1..] + b;
      CollectAppend(info, defs, CollectField(info, defs, plan, a[0]), a[1..], b);
    }
  }

  /** A field whose table or columns cannot be looked up is skipped, and
      the fields after it are still collected: the result is the one
      without it. */
  lemma SkippedField(info: EntityTypeInfo, defs: map<string, FieldDefinition>, a: seq<string>, name: string,
                     b: seq<string>)
    requires name !in defs || defs[name].place.None?
    ensures Collect(info, defs, EmptyPlan, a + [name] + b) == Collect(info, defs, EmptyPlan, a + b)
  {
    CollectAppend(info, defs, EmptyPlan, a + [name], b);
    CollectAppend(info, defs, EmptyPlan, a, [name]);
    CollectAppend(info, defs, EmptyPlan, a, b);
  }

  /** Every column the first plan lists for a table, the second lists too. */
  ghost predicate Includes(plan: Plan, r: Plan)
  {
    forall t, c :: t in plan.columns && c in plan.columns[t] ==> t in r.columns && c in r.columns[t]
  }

  lemma AddColumnIncludes(plan: Plan, table: string, column: string, indexColumn: string, unique: bool)
    requires WellFormed(plan)
    ensures var r := AddColumn(plan, table, column, indexColumn, unique);
      Includes(plan, r) && table in r.columns && column in r.columns[table]
  {
    var r := AddColumn(plan, table, column, indexColumn, unique);
    forall t, c | t in plan.columns && c in plan.columns[t]
      ensures t in r.columns && c in r.columns[t]
    {
      if t == table {
        assert c in ColumnsOf(plan, table) + [column];
      }
    }
    assert column in ColumnsOf(plan, table) + [column];
  }

  /** A round keeps every column already collected. */
  lemma CollectFieldIncludes(info: EntityTypeInfo, defs: map<string, FieldDefinition>, plan: Plan, name: string)
    requires WellFormed(plan)
    ensures Includes(plan, CollectField(info, defs, plan, name))
  {
    if name in defs && defs[name].place.Some? {
      var def := defs[name];
      var place := def.place.value;
      var main := AddColumn(plan, place.table, place.column, place.indexColumn, false);
      AddColumnIncludes(plan, place.table, place.column, place.indexColumn, false);
      if info.revisionable && def.revisionable {
        match def.revision
        case DedicatedRevisionTable(t) =>
          AddColumnIncludes(main, t, place.column, place.indexColumn, false);
        case SharedRevisionTables =>
          AddColumnIncludes(main, RevisionTableOf(info), place.column, place.indexColumn, true);
        case _ =>
      }
    }
  }

  /** A round adds the field's column, and sets the field's index column,
      for every table the field is stored in. */
  lemma CollectFieldInTable(info: EntityTypeInfo, defs: map<string, FieldDefinition>, plan: Plan, name: string,
                            table: string)
    requires WellFormed(plan) && table in TablesOf(info, defs, name)
    ensures var r := CollectField(info, defs, plan, name);
      table in r.columns && defs[name].place.value.column in r.columns[table] &&
      table in r.indexColumns && r.indexColumns[table] == [defs[name].place.value.indexColumn]
  {
    var def := defs[name];
    var place := def.place.value;
    var main := AddColumn(plan, place.table, place.column, place.indexColumn, false);
    AddColumnIncludes(plan, place.table, place.column, place.indexColumn, false);
    assert place.table in main.columns && place.column in main.columns[place.table];
    assert main.indexColumns[place.table] == [place.indexColumn];
    if info.revisionable && def.revisionable && (def.revision.DedicatedRevisionTable? || def.revision.SharedRevisionTables?) {
      var t := if def.revision.DedicatedRevisionTable? then def.revision.table else RevisionTableOf(info);
      var unique := def.revision.SharedRevisionTables?;
      var r := AddColumn(main, t, place.column, place.indexColumn, unique);
      assert CollectField(info, defs, plan, name) == r;
      assert TablesOf(info, defs, name) == {place.table, t};
      AddColumnIncludes(main, t, place.column, place.indexColumn, unique);
      if table != t {
        assert table in {place.table, t};
        assert r.indexColumns[table] == main.indexColumns[table];
      }
    } else {
      assert CollectField(info, defs, plan, name) == main;
      assert TablesOf(info, defs, name) == {place.table};
    }
  }

  lemma IncludesTransitive(a: Plan, b: Plan, c: Plan)
    requires Includes(a, b) && Includes(b, c)
    ensures Includes(a, c)
  {
  }

  /** The loop never drops a column it collected. */
  lemma {:induction false} CollectIncludes(info: EntityTypeInfo, defs: map<string, FieldDefinition>, plan: Plan,
                                           names: seq<string>)
    requires WellFormed(plan)
    decreases |names|
    ensures Includes(plan, Collect(info, defs, plan, names))
  {
    if names != [] {
      var next := CollectField(info, defs, plan, names[0]);
      CollectFieldIncludes(info, defs, plan, names[0]);
      CollectIncludes(info, defs, next, names[1..]);
      IncludesTransitive(plan, next, Collect(info, defs, next, names[1..]));
    }
  }

  /** After the loop, a collected field's target_id column is listed under
      every table it is stored in. */
  lemma {:induction false} CollectCovers(info: EntityTypeInfo, defs: map<string, FieldDefinition>, plan: Plan,
                                         names: seq<string>, k: nat, table: string)
    requires WellFormed(plan)
    requires k < |names| && table in TablesOf(info, defs, names[k])
    decreases |names|
    ensures var r := Collect(info, defs, plan, names);
      table in r.columns && defs[names[k]].place.value.column in r.columns[table]
  {
    var next := CollectField(info, defs, plan, names[0]);
    if k > 0 {
      assert names[k] == names[1..][k - 1];
      CollectCovers(info, defs, next, names[1..], k - 1, table);
    } else {
      CollectFieldInTable(info, defs, plan, names[0], table);
      CollectIncludes(info, defs, next, names[1..]);
    }
  }

  /** Only the tables a field is stored in are touched by its round. */
  lemma CollectFieldElsewhere(info: EntityTypeInfo, defs: map<string, FieldDefinition>, plan: Plan, name: string,
                              table: string)
    requires WellFormed(plan) && table !in TablesOf(info, defs, name)
    ensures var r := CollectField(info, defs, plan, name);
      (table in r.indexColumns <==> table in plan.indexColumns) &&
      (table in plan.indexColumns ==> r.indexColumns[table] == plan.indexColumns[table]) &&
      (table in r.columns <==> table in plan.columns) &&
      (table in plan.columns ==> r.columns[table] == plan.columns[table])
  {
  }

  /** A table's index columns are the target_type column of the last field
      stored in it. */
  lemma {:induction false} IndexColumnsLastWins(info: EntityTypeInfo, defs: map<string, FieldDefinition>, plan: Plan,
                                                names: seq<string>, k: nat, table: string)
    requires WellFormed(plan)
    requires k < |names| && table in TablesOf(info, defs, names[k])
    requires forall j :: k < j < |names| ==> table !in TablesOf(info, defs, names[j])
    decreases |names|
    ensures var r := Collect(info, defs, plan, names);
      table in r.indexColumns && r.indexColumns[table] == [defs[names[k]].place.value.indexColumn]
  {
    var next := CollectField(info, defs, plan, names[0]);
    if k == 0 {
      CollectFieldInTable(info, defs, plan, names[0], table);
      KeepsIndexColumns(info, defs, next, names[1..], table);
    } else {
      forall j | k - 1 < j < |names[1..]|
        ensures table !in TablesOf(info, defs, names[1..][j])
      {
        assert names[1..][j] == names[j + 1];
      }
      IndexColumnsLastWins(info, defs, next, names[1..], k - 1, table);
    }
  }

  /** Fields stored elsewhere leave a table's index columns as they are. */
  lemma {:induction false} KeepsIndexColumns(info: EntityTypeInfo, defs: map<string, FieldDefinition>, plan: Plan,
                                             names: seq<string>, table: string)
    requires WellFormed(plan) && table in plan.indexColumns
    requires forall j :: 0 <= j < |names| ==> table !in TablesOf(info, defs, names[j])
    decreases |names|
    ensures var r := Collect(info, defs, plan, names);
      table in r.indexColumns && r.indexColumns[table] == plan.indexColumns[table]
  {
    if names != [] {
      CollectFieldElsewhere(info, defs, plan, names[0], table);
      forall j | 0 <= j < |names[1..]|
        ensures table !in TablesOf(info, defs, names[1..][j])
      {
        assert names[1..][j] == names[j + 1];
      }
      KeepsIndexColumns(info, defs, CollectField(info, defs, plan, names[0]), names[1..], table);
    }
  }

  /** The shared revision table never lists a column twice. */
  lemma SharedRevisionUnique(info: EntityTypeInfo, defs: map<string, FieldDefinition>, plan: Plan, name: string)
    requires WellFormed(plan) && name in defs && defs[name].place.Some?
    requires info.revisionable && defs[name].revisionable && defs[name].revision.SharedRevisionTables?
    ensures var r := CollectField(info, defs, plan, name);
      var columns := r.columns[RevisionTableOf(info)];
      defs[name].place.value.column in columns &&
      forall a, b :: 0 <= a < b < |columns| ==> columns[a] != columns[b]
  {
  }

  /** What the handler's create() does to the schema and the statement log:
      IntColumnHandlerPostgreSQL on PostgreSQL, IntColumnHandler otherwise
      (which takes no index columns). */
  function HandlerCreate(engine: Engine, sha256: string -> Hex, prefixTables: string -> string, s: Schema,
                         log: seq<Statement>, table: string, columns: seq<string>, indexColumns: seq<string>)
    : (Result<seq<string>>, Schema, seq<Statement>)
  {
    if engine.PostgreSQL? then
      var prefixedTable := P.GetPrefixedTable(prefixTables, table);
      var out := P.CreateFrom(prefixedTable, s, table, columns, indexColumns);
      if !P.AllColumnsExist(s.tables, table, columns) then (Ok([]), s, log)
      else (if out.0.Pass? then Ok(out.1) else Err(out.0.error), out.2,
            log + P.RenderAll(P.CreateLog(prefixedTable, s, table, columns, indexColumns)))
    else
      var present := if table in s.tables then s.tables[table].Keys else {};
      var added := H.NewIntColumns(present, columns);
      var phase := H.TriggerPhase(engine, sha256, H.TriggerLog(s.triggers, log), prefixTables("{" + table + "}"),
                                  H.BodyText(engine, columns), H.BodyAssigns(columns));
      if table !in s.tables && columns != [] then (Err(SchemaObjectDoesNotExist(table)), s, log)
      else if added == [] then (Ok([]), s, log)
      else (if phase.0.Pass? then Ok(added) else Err(phase.0.error),
            s.(tables := s.tables[table := s.tables[table] + H.Declared(added)], triggers := phase.1.triggers),
            phase.1.log)
  }

  /** What create() returns are the shadow columns it added: each is the
      shadow of one of the columns and was missing before, and the table
      gains exactly those; no other table changes. */
  lemma HandlerCreateAdds(engine: Engine, sha256: string -> Hex, prefixTables: string -> string, s: Schema,
                          log: seq<Statement>, table: string, columns: seq<string>, indexColumns: seq<string>)
    ensures var r := HandlerCreate(engine, sha256, prefixTables, s, log, table, columns, indexColumns);
      r.0.Ok? ==>
        (r.0.value == [] ==> r.1.tables == s.tables) &&
        (r.0.value != [] ==> table in s.tables && r.1.tables == s.tables[table := s.tables[table] + H.Declared(r.0.value)]) &&
        forall x :: x in r.0.value ==>
          (exists j :: 0 <= j < |columns| && x == H.IntName(columns[j])) && table in s.tables && x !in s.tables[table]
  {
    var present := if table in s.tables then s.tables[table].Keys else {};
    H.NewIntColumnsSound(present, columns);
    if engine.PostgreSQL? {
      var prefixedTable := P.GetPrefixedTable(prefixTables, table);
      if P.AllColumnsExist(s.tables, table, columns) && columns != [] {
        assert table in s.tables by { assert columns[0] in columns; }
        P.CreateFromAdded(prefixedTable, s, table, columns, indexColumns);
        H.DeclaredNothing(s.tables, table);
      }
    }
  }

  /** The loop over the collected tables: create() for each, in order,
      with its columns and index columns; the first exception ends it. The
      result lists each table create() returned for, with what it returned. */
  function CreateAll(engine: Engine, sha256: string -> Hex, prefixTables: string -> string, s: Schema,
                     log: seq<Statement>, plan: Plan, order: seq<string>)
    : (r: (Outcome, seq<(string, seq<string>)>, Schema, seq<Statement>))
    requires forall k :: 0 <= k < |order| ==> order[k] in plan.columns && order[k] in plan.indexColumns
    decreases |order|
  {
    if order == [] then (Pass, [], s, log)
    else
      var table := order[0];
      var c := HandlerCreate(engine, sha256, prefixTables, s, log, table, plan.columns[table], plan.indexColumns[table]);
      if c.0.Err? then (Fail(c.0.error), [], c.1, c.2)
      else
        var rest := CreateAll(engine, sha256, prefixTables, c.1, c.2, plan, order[1..]);
        (rest.0, [(table, c.0.value)] + rest.1, rest.2, rest.3)
  }

  lemma {:induction false} CreateAllStep(engine: Engine, sha256: string -> Hex, prefixTables: string -> string,
                                         s: Schema, log: seq<Statement>, plan: Plan, order: seq<string>, i: nat)
    requires forall k :: 0 <= k < |order| ==> order[k] in plan.columns && order[k] in plan.indexColumns
    requires i < |order|
    ensures var table := order[i];
      var c := HandlerCreate(engine, sha256, prefixTables, s, log, table, plan.columns[table], plan.indexColumns[table]);
      var rest := CreateAll(engine, sha256, prefixTables, c.1, c.2, plan, order[i + 1..]);
      CreateAll(engine, sha256, prefixTables, s, log, plan, order[i..]) ==
        if c.0.Err? then (Fail(c.0.error), [], c.1, c.2) else (rest.0, [(table, c.0.value)] + rest.1, rest.2, rest.3)
  {
    assert order[i..][1..] == order[i + 1..];
  }

  /** When the loop passes, create() was called once per table, in order;
      the tables only gain columns, and each column create() returned was
      missing from its table before the loop and is there after it. */
  lemma {:induction false} CreateAllAdds(engine: Engine, sha256: string -> Hex, prefixTables: string -> string,
                                         s: Schema, log: seq<Statement>, plan: Plan, order: seq<string>)
    requires forall k :: 0 <= k < |order| ==> order[k] in plan.columns && order[k] in plan.indexColumns
    requires forall a, b :: 0 <= a < b < |order| ==> order[a] != order[b]
    decreases |order|
    ensures var r := CreateAll(engine, sha256, prefixTables, s, log, plan, order);
      r.0.Pass? ==>
        |r.1| == |order| && (forall k :: 0 <= k < |order| ==> r.1[k].0 == order[k]) &&
        Grows(s.tables, r.2.tables) &&
        forall k, x :: 0 <= k < |order| && x in r.1[k].1 ==>
          order[k] in s.tables && x !in s.tables[order[k]] && order[k] in r.2.tables && x in r.2.tables[order[k]]
  {
    if order != [] {
      var table := order[0];
      var c := HandlerCreate(engine, sha256, prefixTables, s, log, table, plan.columns[table], plan.indexColumns[table]);
      HandlerCreateAdds(engine, sha256, prefixTables, s, log, table, plan.columns[table], plan.indexColumns[table]);
      if c.0.Ok? {
        var r := CreateAll(engine, sha256, prefixTables, s, log, plan, order);
        var rest := CreateAll(engine, sha256, prefixTables, c.1, c.2, plan, order[1..]);
        CreateAllAdds(engine, sha256, prefixTables, c.1, c.2, plan, order[1..]);
        if rest.0.Pass? {
          GrowsOnce(s.tables, table, c.0.value);
          forall k, x | 0 <= k < |order| && x in r.1[k].1
            ensures order[k] in s.tables && x !in s.tables[order[k]] && order[k] in r.2.tables && x in r.2.tables[order[k]]
          {
            if k == 0 {
              assert x in c.0.value;
              assert table in c.1.tables && x in c.1.tables[table];
            } else {
              assert order[k] == order[1..][k - 1] && r.1[k] == rest.1[k - 1];
              assert order[k] != table;
            }
          }
        }
      }
    }
  }

  /** Every table of the first map is in the second with at least its
      columns. */
  ghost predicate Grows(a: map<string, map<string, ColumnSpec>>, b: map<string, map<string, ColumnSpec>>)
  {
    forall t, c :: t in a && c in a[t] ==> t in b && c in b[t]
  }

  lemma GrowsOnce(tables: map<string, map<string, ColumnSpec>>, table: string, added: seq<string>)
    ensures added != [] && table in tables ==> Grows(tables, tables[table := tables[table] + H.Declared(added)])
  {
  }

  /** The bulk UPDATE for one table: its first new column set to 0, or
      nothing when create() added no column. */
  function BulkUpdateOf(entry: (string, seq<string>)): (r: seq<Statement>)
    ensures |r| <= 1
    ensures r != [] <==> entry.1 != []
    ensures r != [] ==> r[0] == BulkUpdate(entry.0, entry.1[0], 0)
  {
    if entry.1 == [] then [] else [BulkUpdate(entry.0, entry.1[0], 0)]
  }

  /** The loop over array_filter($new). */
  function BulkUpdates(created: seq<(string, seq<string>)>): seq<Statement>
    decreases |created|
  {
    if created == [] then [] else BulkUpdates(created[..|created| - 1]) + BulkUpdateOf(created[|created| - 1])
  }

  /** Exactly the tables that got new columns are updated, each by setting
      its first new column to 0. */
  lemma {:induction false} BulkUpdatesExactly(created: seq<(string, seq<string>)>, st: Statement)
    decreases |created|
    ensures st in BulkUpdates(created) <==>
      exists k :: 0 <= k < |created| && created[k].1 != [] && st == BulkUpdate(created[k].0, created[k].1[0], 0)
  {
    if created != [] {
      var init := created[..|created| - 1];
      BulkUpdatesExactly(init, st);
      if exists k :: 0 <= k < |created| && created[k].1 != [] && st == BulkUpdate(created[k].0, created[k].1[0], 0) {
        var k :| 0 <= k < |created| && created[k].1 != [] && st == BulkUpdate(created[k].0, created[k].1[0], 0);
        if k < |init| {
          assert init[k] == created[k];
        }
      }
      if st in BulkUpdates(init) {
        var k :| 0 <= k < |init| && init[k].1 != [] && st == BulkUpdate(init[k].0, init[k].1[0], 0);
        assert created[k] == init[k];
      }
    }
  }

  lemma {:induction false} BulkUpdatesStep(created: seq<(string, seq<string>)>, i: nat)
    requires i < |created|
    ensures BulkUpdates(created[..i + 1]) == BulkUpdates(created[..i]) + BulkUpdateOf(created[i])
  {
    assert created[..i + 1][..i] == created[..i];
  }

  /** The log after one more round of the loop over array_filter($new). */
  lemma BulkUpdatesLog(log0: seq<Statement>, log: seq<Statement>, created: seq<(string, seq<string>)>, i: nat)
    requires i < |created| && log == log0 + BulkUpdates(created[..i])
    ensures var entry := created[i];
      (if entry.1 != [] then log + [BulkUpdate(entry.0, entry.1[0], 0)] else log) == log0 + BulkUpdates(created[..i + 1])
  {
    BulkUpdatesStep(created, i);
    if created[i].1 == [] {
      assert log + [] == log;
    }
  }

  /** handleEntityType(): what it does to the schema and the statement log,
      and whether it throws. */
  function Handle(engine: Engine, sha256: string -> Hex, prefixTables: string -> string, s: Schema,
                  log: seq<Statement>, info: EntityTypeInfo, definition: Option<FieldDefinition>)
    : (Outcome, Schema, seq<Statement>)
  {
    var names := FieldNames(info, definition);
    if !info.sqlStorage || names == [] then (Pass, s, log)
    else
      var plan := Collect(info, Definitions(info, definition), EmptyPlan, names);
      var run := CreateAll(engine, sha256, prefixTables, s, log, plan, plan.order);
      (run.0, run.2, run.3 + if run.0.Pass? then BulkUpdates(run.1) else [])
  }

  /** Nothing happens unless the storage is SQL and the entity type has at
      least one field of this type, counting the definition passed in. */
  lemma HandleNeedsFields(engine: Engine, sha256: string -> Hex, prefixTables: string -> string, s: Schema,
                          log: seq<Statement>, info: EntityTypeInfo, definition: Option<FieldDefinition>)
    requires Handle(engine, sha256, prefixTables, s, log, info, definition) != (Pass, s, log)
    ensures info.sqlStorage
    ensures info.derFields != [] || (definition.Some? && definition.value.fieldType == FieldType)
  {
  }

  /** When handleEntityType() passes, every table that create() gave new
      columns gets one bulk UPDATE setting one of them to 0, and no other
      table gets one; each such column is a shadow column missing before and
      present after. */
  lemma HandleUpdatesNewColumns(engine: Engine, sha256: string -> Hex, prefixTables: string -> string, s: Schema,
                                log: seq<Statement>, info: EntityTypeInfo, definition: Option<FieldDefinition>,
                                table: string, column: string, value: int)
    requires info.sqlStorage && FieldNames(info, definition) != []
    requires Handle(engine, sha256, prefixTables, s, log, info, definition).0.Pass?
    ensures var plan := Collect(info, Definitions(info, definition), EmptyPlan, FieldNames(info, definition));
      var run := CreateAll(engine, sha256, prefixTables, s, log, plan, plan.order);
      var r := Handle(engine, sha256, prefixTables, s, log, info, definition);
      BulkUpdate(table, column, value) in r.2[|run.3|..] <==>
        (value == 0 && exists k :: 0 <= k < |run.1| && run.1[k].0 == table && run.1[k].1 != [] && column == run.1[k].1[0])
    ensures var plan := Collect(info, Definitions(info, definition), EmptyPlan, FieldNames(info, definition));
      var run := CreateAll(engine, sha256, prefixTables, s, log, plan, plan.order);
      var r := Handle(engine, sha256, prefixTables, s, log, info, definition);
      BulkUpdate(table, column, value) in r.2[|run.3|..] ==>
        table in plan.order && table in s.tables && column !in s.tables[table] && table in r.1.tables &&
        column in r.1.tables[table]
  {
    var plan := Collect(info, Definitions(info, definition), EmptyPlan, FieldNames(info, definition));
    var run := CreateAll(engine, sha256, prefixTables, s, log, plan, plan.order);
    var r := Handle(engine, sha256, prefixTables, s, log, info, definition);
    assert r.2[|run.3|..] == BulkUpdates(run.1);
    BulkUpdatesExactly(run.1, BulkUpdate(table, column, value));
    CreateAllAdds(engine, sha256, prefixTables, s, log, plan, plan.order);
    if BulkUpdate(table, column, value) in r.2[|run.3|..] {
      var k :| 0 <= k < |run.1| && run.1[k].1 != [] && BulkUpdate(table, column, value) == BulkUpdate(run.1[k].0, run.1[k].1[0], 0);
      assert column in run.1[k].1;
    }
  }

  /** The collect loop. */
  method CollectTables(info: EntityTypeInfo, defs: map<string, FieldDefinition>, names: seq<string>) returns (plan: Plan)
    ensures plan == Collect(info, defs, EmptyPlan, names)
    ensures WellFormed(plan)
  {
    plan := EmptyPlan;
    var i := 0;
    assert names[0..] == names;
    while i < |names|
      invariant 0 <= i <= |names| && WellFormed(plan)
      invariant Collect(info, defs, EmptyPlan, names) == Collect(info, defs, plan, names[i..])
    {
      CollectStep(info, defs, plan, names, i);
      var name := names[i];
      if name in defs && defs[name].place.Some? {
        var def := defs[name];
        var place := def.place.value;
        plan := AddColumn(plan, place.table, place.column, place.indexColumn, false);
        if info.revisionable && def.revisionable {
          match def.revision {
            case DedicatedRevisionTable(t) =>
              plan := AddColumn(plan, t, place.column, place.indexColumn, false);
            case SharedRevisionTables =>
              var revisionTable := if Falsy(info.revisionDataTable) then info.revisionTable
                                   else info.revisionDataTable.value;
              plan := AddColumn(plan, revisionTable, place.column, place.indexColumn, true);
            case _ =>
          }
        }
      }
      i := i + 1;
    }
  }

  /** The invariant of the loop over $tables: the tables before i are
      done, and the whole loop is what is left of it, after them. */
  ghost predicate CreateInvariant(engine: Engine, sha256: string -> Hex, prefixTables: string -> string, s0: Schema,
                                  log0: seq<Statement>, plan: Plan, i: nat, created: seq<(string, seq<string>)>,
                                  s: Schema, log: seq<Statement>)
  {
    WellFormed(plan) && i <= |plan.order| &&
    var full := CreateAll(engine, sha256, prefixTables, s0, log0, plan, plan.order);
    var rest := CreateAll(engine, sha256, prefixTables, s, log, plan, plan.order[i..]);
    full == (rest.0, created + rest.1, rest.2, rest.3)
  }

  lemma CreateLoopStart(engine: Engine, sha256: string -> Hex, prefixTables: string -> string, s0: Schema,
                        log0: seq<Statement>, plan: Plan)
    requires WellFormed(plan)
    ensures CreateInvariant(engine, sha256, prefixTables, s0, log0, plan, 0, [], s0, log0)
  {
    assert plan.order[0..] == plan.order;
    var full := CreateAll(engine, sha256, prefixTables, s0, log0, plan, plan.order);
    var none: seq<(string, seq<string>)> := [];
    assert none + full.1 == full.1;
  }

  /** One round of the loop over $tables: a create() that throws ends the
      whole loop; one that returns keeps the invariant. */
  lemma CreateLoopStep(engine: Engine, sha256: string -> Hex, prefixTables: string -> string, s0: Schema,
                       log0: seq<Statement>, plan: Plan, i: nat, created: seq<(string, seq<string>)>,
                       s: Schema, log: seq<Statement>)
    requires i < |plan.order|
    requires CreateInvariant(engine, sha256, prefixTables, s0, log0, plan, i, created, s, log)
    ensures var table := plan.order[i];
      var c := HandlerCreate(engine, sha256, prefixTables, s, log, table, plan.columns[table], plan.indexColumns[table]);
      var full := CreateAll(engine, sha256, prefixTables, s0, log0, plan, plan.order);
      if c.0.Err? then full.0 == Fail(c.0.error) && full.2 == c.1 && full.3 == c.2
      else CreateInvariant(engine, sha256, prefixTables, s0, log0, plan, i + 1, created + [(table, c.0.value)], c.1, c.2)
  {
    var table := plan.order[i];
    CreateAllStep(engine, sha256, prefixTables, s, log, plan, plan.order, i);
    var c := HandlerCreate(engine, sha256, prefixTables, s, log, table, plan.columns[table], plan.indexColumns[table]);
    CreateInvariantNext(engine, sha256, prefixTables, s0, log0, plan, i, created, s, log, c);
  }

  /** The same step, for whatever create() returned. */
  lemma CreateInvariantNext(engine: Engine, sha256: string -> Hex, prefixTables: string -> string, s0: Schema,
                            log0: seq<Statement>, plan: Plan, i: nat, created: seq<(string, seq<string>)>,
                            s: Schema, log: seq<Statement>, c: (Result<seq<string>>, Schema, seq<Statement>))
    requires i < |plan.order|
    requires CreateInvariant(engine, sha256, prefixTables, s0, log0, plan, i, created, s, log)
    requires var next := CreateAll(engine, sha256, prefixTables, c.1, c.2, plan, plan.order[i + 1..]);
      CreateAll(engine, sha256, prefixTables, s, log, plan, plan.order[i..]) ==
        if c.0.Err? then (Fail(c.0.error), [], c.1, c.2)
        else (next.0, [(plan.order[i], c.0.value)] + next.1, next.2, next.3)
    ensures var full := CreateAll(engine, sha256, prefixTables, s0, log0, plan, plan.order);
      if c.0.Err? then full.0 == Fail(c.0.error) && full.2 == c.1 && full.3 == c.2
      else CreateInvariant(engine, sha256, prefixTables, s0, log0, plan, i + 1, created + [(plan.order[i], c.0.value)], c.1, c.2)
  {
    var full := CreateAll(engine, sha256, prefixTables, s0, log0, plan, plan.order);
    var rest := CreateAll(engine, sha256, prefixTables, s, log, plan, plan.order[i..]);
    assert full == (rest.0, created + rest.1, rest.2, rest.3);
    if c.0.Ok? {
      var next := CreateAll(engine, sha256, prefixTables, c.1, c.2, plan, plan.order[i + 1..]);
      var entry := (plan.order[i], c.0.value);
      assert rest == (next.0, [entry] + next.1, next.2, next.3);
      CreatedShift(full, rest, next, created, entry);
    }
  }

  lemma CreatedShift(full: (Outcome, seq<(string, seq<string>)>, Schema, seq<Statement>),
                     rest: (Outcome, seq<(string, seq<string>)>, Schema, seq<Statement>),
                     next: (Outcome, seq<(string, seq<string>)>, Schema, seq<Statement>),
                     created: seq<(string, seq<string>)>, entry: (string, seq<string>))
    requires full == (rest.0, created + rest.1, rest.2, rest.3)
    requires rest == (next.0, [entry] + next.1, next.2, next.3)
    ensures full == (next.0, (created + [entry]) + next.1, next.2, next.3)
  {
    assert created + ([entry] + next.1) == (created + [entry]) + next.1;
  }

  lemma CreateLoopEnd(engine: Engine, sha256: string -> Hex, prefixTables: string -> string, s0: Schema,
                      log0: seq<Statement>, plan: Plan, created: seq<(string, seq<string>)>, s: Schema, log: seq<Statement>)
    requires CreateInvariant(engine, sha256, prefixTables, s0, log0, plan, |plan.order|, created, s, log)
    ensures CreateAll(engine, sha256, prefixTables, s0, log0, plan, plan.order) == (Pass, created, s, log)
  {
    assert plan.order[|plan.order|..] == [];
    assert created + [] == created;
  }

  class FieldStorageSubscriber {
    const connection: Database

    constructor (connection: Database)
      ensures this.connection == connection
    {
      this.connection := connection;
    }

    /** onFieldStorage(): handles the definition's entity type with the
        definition itself. */
    method OnFieldStorage(info: EntityTypeInfo, definition: FieldDefinition) returns (o: Outcome)
      modifies connection
      ensures (o, connection.State(), connection.log) ==
        Handle(connection.engine, connection.sha256, connection.prefixTables, old(connection.State()),
               old(connection.log), info, Some(definition))
    {
      o := HandleEntityType(info, Some(definition));
    }

    /** onEntityType(): handles the new entity type. */
    method OnEntityType(info: EntityTypeInfo) returns (o: Outcome)
      modifies connection
      ensures (o, connection.State(), connection.log) ==
        Handle(connection.engine, connection.sha256, connection.prefixTables, old(connection.State()),
               old(connection.log), info, None)
    {
      o := HandleEntityType(info, None);
    }

    /** handleEntityType(). */
    method HandleEntityType(info: EntityTypeInfo, definition: Option<FieldDefinition>) returns (o: Outcome)
      modifies connection
      ensures (o, connection.State(), connection.log) ==
        Handle(connection.engine, connection.sha256, connection.prefixTables, old(connection.State()),
               old(connection.log), info, definition)
    {
      var names := FieldNames(info, definition);
      if !info.sqlStorage || names == [] {
        return Pass;
      }
      var plan := CollectTables(info, Definitions(info, definition), names);
      var created;
      o, created := CreateTables(plan);
      if o.Pass? {
        UpdateNew(created);
      } else {
        assert connection.log + [] == connection.log;
      }
    }

    /** The loop over $tables. */
    method CreateTables(plan: Plan) returns (o: Outcome, created: seq<(string, seq<string>)>)
      modifies connection
      requires WellFormed(plan)
      ensures var run := CreateAll(connection.engine, connection.sha256, connection.prefixTables, old(connection.State()),
                                   old(connection.log), plan, plan.order);
        o == run.0 && (o.Pass? ==> created == run.1) && connection.State() == run.2 && connection.log == run.3
    {
      ghost var s0 := connection.State();
      ghost var log0 := connection.log;
      created := [];
      var i := 0;
      CreateLoopStart(connection.engine, connection.sha256, connection.prefixTables, s0, log0, plan);
      while i < |plan.order|
        invariant 0 <= i <= |plan.order|
        invariant CreateInvariant(connection.engine, connection.sha256, connection.prefixTables, s0, log0, plan, i, created,
                                  connection.State(), connection.log)
      {
        var table := plan.order[i];
        CreateLoopStep(connection.engine, connection.sha256, connection.prefixTables, s0, log0, plan, i, created,
                       connection.State(), connection.log);
        var r := CreateFor(table, plan.columns[table], plan.indexColumns[table]);
        if r.Err? {
          return Fail(r.error), created;
        }
        created := created + [(table, r.value)];
        i := i + 1;
      }
      CreateLoopEnd(connection.engine, connection.sha256, connection.prefixTables, s0, log0, plan, created,
                    connection.State(), connection.log);
      o := Pass;
    }

    /** $this->intColumnHandler->create(): the handler for the connection's
        engine. */
    method CreateFor(table: string, columns: seq<string>, indexColumns: seq<string>) returns (r: Result<seq<string>>)
      modifies connection
      ensures (r, connection.State(), connection.log) ==
        HandlerCreate(connection.engine, connection.sha256, connection.prefixTables, old(connection.State()),
                      old(connection.log), table, columns, indexColumns)
    {
      if connection.engine.PostgreSQL? {
        var handler := new P.IntColumnHandlerPostgreSQL(connection);
        r := handler.Create(table, columns, indexColumns);
      } else {
        var handler := new H.IntColumnHandler(connection);
        r := handler.Create(table, columns);
      }
    }

    /** The loop over array_filter($new): one bulk UPDATE per table that got
        new columns. */
    method UpdateNew(created: seq<(string, seq<string>)>)
      modifies connection
      ensures connection.State() == old(connection.State())
      ensures connection.log == old(connection.log) + BulkUpdates(created)
    {
      var i := 0;
      assert created[..0] == [];
      while i < |created|
        invariant 0 <= i <= |created|
        invariant connection.State() == old(connection.State())
        invariant connection.log == old(connection.log) + BulkUpdates(created[..i])
      {
        var entry := created[i];
        BulkUpdatesLog(old(connection.log), connection.log, created, i);
        if entry.1 != [] {
          connection.Update(entry.0, entry.1[0], 0);
        }
        i := i + 1;
      }
      assert created[..i] == created;
    }
  }
}
