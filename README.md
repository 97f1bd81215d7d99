# Dynamic entity reference, modelled in Dafny

This project models the core of the Drupal module *dynamic_entity_reference*.
The module provides a field type whose items reference an entity of any entity
type: each item stores a `target_type` and a `target_id`, and lazily loads the
`entity` they name. Because entity ids may be integers or strings, the module
keeps `target_id` as a string column. For every such column it adds an integer
shadow column `<column>_int`, which a database trigger keeps filled with the
numeric value of the id. Queries join on the shadow column when the target
type has integer ids.

The model covers:

- **Shadow columns and triggers.**
  - `IntColumnHandler` (MySQL and SQLite dialects) adds missing shadow columns
    and (re)creates one update and one insert trigger per table.
  - `IntColumnHandlerPostgreSQL` adds a plpgsql function, a trigger and an
    index per shadow column.
  - `ShadowValue` gives the value each engine's trigger body computes and
    whether the shadow column can hold it, and
    `Database` models the schema, the triggers and the statement log these
    handlers act on.
- **Field storage events.** `FieldStorageSubscriber` collects, for an entity
  type, the tables and columns of its dynamic reference fields (including
  dedicated and shared revision tables). It calls the handler for each table
  and then issues one bulk UPDATE per table that gained columns.
- **Entity queries.** `Tables` switches a join to the shadow column.
- **The reference data type.** It comes in two versions:
  - `DynamicEntityReference` (src/): setValue, and getTarget with caching and
    keeping the entity type in sync;
  - `LegacyDynamicEntityReference` (lib/): also getTargetIdentifier, getValue
    and getString.
- **The field item.** `DynamicEntityReferenceItem` covers:
  - getTargetTypes, with include and exclude settings;
  - mainPropertyName and onChange;
  - setValue, including its two exceptions;
  - getValue and preSave.
- **The field item list.** `FieldItemList` covers referencedEntities (grouped
  loading, ordered by delta), processDefaultValue (uuid to id) and
  defaultValuesFormSubmit (id to uuid), with their round trip.
- **The validator.** `ValidDynamicReference` models it.
- **The options widget trait.** `DynamicEntityReferenceOptions` covers
  isApplicable, getOptions (empty option, flattening, cache),
  getSelectedOptions, massageFormValues and getEmptyLabel.
- **The formatter trait.** `DynamicEntityReferenceFormatter` covers
  prepareView: collecting ids and revision ids, loading, attaching, access, and
  dropping dangling items.

How each kind of source is represented:

- PHP objects whose properties are updated in place are Dafny classes: the
  database connection, the handlers, the subscriber, the data types, the field
  item and the options widget. Their methods state their whole new state
  against pure functions, and lemmas prove the promised properties of those
  functions.
- Loops in the source are `while` loops with invariants. They are proved equal
  to a specification function, in the subscriber, the handlers, the item list
  and the formatter.
- Services the code only calls are parameters. These include the entity
  store, uuid lookup, access, sha256, table prefixing, settable options and
  alter hooks.

## Model

| member | source | states |
|---|---|---|
| Strings.JoinContains | src/Storage/IntColumnHandler.php:59 | a character other than the separator occurs in the imploded body exactly when it occurs in one of the parts |
| Strings.JoinSplit | src/Storage/IntColumnHandlerSQLite.php:21 | imploding the pieces of explode() with the same separator gives back the original string |
| Strings.SplitPiecesHaveNoSeparator | src/Storage/IntColumnHandlerSQLite.php:21 | no piece produced by explode() contains the separator |
| Strings.SplitAtSeparator | src/Storage/IntColumnHandlerSQLite.php:21 | exploding a + sep + b gives the pieces of a followed by the pieces of b |
| Strings.SplitWithoutSeparator | src/Storage/IntColumnHandlerSQLite.php:21 | a string without the separator explodes into itself alone |
| Strings.LastSegment | src/Storage/IntColumnHandlerSQLite.php:21-25 | array_pop(explode()) is the suffix after the last separator: it has no separator and is preceded by one unless it is the whole string |
| Strings.Prefix | src/Storage/IntColumnHandler.php:64 | substr($s, 0, n) is the first min(n, length) characters |
| Entities.EmptyIdMeaning | src/Plugin/Validation/Constraint/ValidDynamicReferenceConstraintValidator.php:31-32 | PHP empty() on a target id holds exactly for NULL, '' and '0' (or the integer 0) |
| Entities.Load | src/Plugin/DataType/DynamicEntityReference.php:41-43 | entity_load() returns an entity only for a known type and a stored key, and in a coherent store it is of that type with a loosely equal id |
| Entities.Saved | src/Plugin/Field/FieldType/DynamicEntityReferenceItem.php:401-403 | saving a new entity gives it the storage's id and clears isNew, keeping its type, uuid and label |
| ShadowValue.RegexShadow | src/Storage/IntColumnHandlerMySQL.php:14 | the value the MySQL and PostgreSQL bodies compute is NULL exactly for the empty string or one containing a non-digit; whether it fits the column is decided by Shadow |
| ShadowValue.CastShadow | src/Storage/IntColumnHandlerSQLite.php:14 | SQLite's CAST agrees with the regex rule on digit strings and gives 0 for a string not starting with a digit |
| ShadowValue.LeadingDigits | src/Storage/IntColumnHandlerSQLite.php:14 | the prefix CAST reads is the longest run of digits at the start of the string |
| ShadowValue.ShadowRoundTrip | src/Storage/IntColumnHandler.php:35-39 | the decimal id n reads back as n under both rules, and is stored as its own shadow exactly when n fits the shadow column; beyond that MySQL and PostgreSQL refuse the write and SQLite saturates |
| ShadowValue.DigitsValueOfNatToString | src/Storage/IntColumnHandlerMySQL.php:14 | the digits of n's decimal rendering denote n |
| ShadowValue.NatToStringOfCanonical | src/Storage/IntColumnHandlerPostgreSQL.php:81-83 | a digit string without a leading zero is the decimal rendering of its value |
| ShadowValue.StripLeadingZerosKeepsValue | src/Storage/IntColumnHandlerPostgreSQL.php:83 | dropping leading zeros keeps the value and gives a canonical digit string |
| ShadowValue.RegexShadowMeaning | src/Storage/IntColumnHandlerMySQL.php:14 | the shadow is Some(n) exactly when the string is all digits and reads as n's decimal rendering after dropping leading zeros |
| ShadowValue.CanonicalShadowInjective | src/Storage/IntColumnHandlerMySQL.php:14 | two canonical digit ids with the same shadow are the same id, so joining on the shadow finds the same rows |
| ShadowValue.BackendsDisagreeOnStringIds | tests/src/Functional/Update/DerUpdateTest.php:72-73 | for a string id not starting with a digit the regex backends store NULL while SQLite stores 0 |
| ShadowValue.Shadow | src/Storage/IntColumnHandlerMySQL.php:14 | a shadow cell is NULL or a number within the column's range; NULL stays NULL; SQLite always gives a number for text; the write fails exactly when a regex backend's value exceeds its column |
| ShadowValue.BackendsDisagreeOnWideIds | src/Storage/IntColumnHandlerPostgreSQL.php:83 | an id between 2^31 and 2^32 - 1 is stored on MySQL's unsigned column but its write fails on PostgreSQL's ::integer |
| Database.ApplyAssignsDefined | src/Storage/IntColumnHandlerMySQL.php:21 | executing a trigger body fails exactly when some source's shadow does not fit its column |
| Database.ApplyAssignsEffect | src/Storage/IntColumnHandlerMySQL.php:21 | when every shadow fits, executing a trigger body sets each target to the shadow of its source and leaves every other column unchanged |
| Database.DropNamed | src/Storage/IntColumnHandler.php:66 | DROP TRIGGER IF EXISTS removes exactly the triggers of that name and keeps the others unchanged |
| Database.Database.constructor | src/Storage/IntColumnHandler.php:25-27 | a connection starts with the given tables, engine and services, and no indexes, triggers, functions or statements |
| Database.Database.AddField | src/Storage/IntColumnHandler.php:50-53 | addField() throws for a missing table or an existing column, and otherwise adds the column with its spec and changes nothing else |
| Database.Database.AddIndex | src/Storage/IntColumnHandlerPostgreSQL.php:62 | addIndex() throws for a missing table or an existing index name, and otherwise records the index fields and changes nothing else |
| Database.Database.DropTrigger | src/Storage/IntColumnHandler.php:66 | query() refuses the statement, changing nothing, when it holds a ';' before its trailing ';' and whitespace and no allow_delimiter_in_query is given; otherwise it is logged and the triggers of that name are gone |
| Database.Database.DropTriggerOn | src/Storage/IntColumnHandlerPostgreSQL.php:105 | query()'s ';' refusal as above; otherwise the statement is logged and the trigger of that name on that table is gone |
| Database.Database.CreateTrigger | src/Storage/IntColumnHandlerMySQL.php:21 | query()'s ';' refusal as above; otherwise the trigger is installed under its table and name and the statement logged; nothing else changes |
| Database.Database.CreateFunction | src/Storage/IntColumnHandlerPostgreSQL.php:87 | query()'s ';' refusal unless allow_delimiter_in_query is given; otherwise CREATE OR REPLACE FUNCTION records the function's assignment and logs the statement |
| Database.Database.Update | src/EventSubscriber/FieldStorageSubscriber.php:187 | the bulk UPDATE is logged and the schema is unchanged |
| IntColumnHandler.IntNameInjective | src/Storage/IntColumnHandler.php:48 | distinct columns have distinct shadow column names |
| IntColumnHandler.NewIntColumnsSound | src/Storage/IntColumnHandler.php:47-53 | every name create() returns is the shadow of an input column, was missing before, and appears once |
| IntColumnHandler.NewIntColumnsComplete | src/Storage/IntColumnHandler.php:47-53 | after the loop every input column's shadow exists or was returned |
| IntColumnHandler.NewIntColumnsEmpty | src/Storage/IntColumnHandler.php:58 | nothing is added exactly when every shadow column already exists |
| IntColumnHandler.CreateIdempotent | src/Storage/IntColumnHandler.php:47-58 | running the loop again on the columns it just added adds nothing |
| IntColumnHandler.BodyTextDelimiter | src/Storage/IntColumnHandler.php:56-59 | the imploded body is empty exactly when there are no columns, and holds a ';' exactly when some column name does |
| IntColumnHandler.TriggerName | src/Storage/IntColumnHandler.php:62-65 | a trigger name is never over 64 characters; a short name is table + "_der_" + op; a long one keeps its first 56 characters and appends 8 of its sha256 |
| IntColumnHandler.TriggerNameDelimiter | src/Storage/IntColumnHandler.php:62-65 | a trigger name holds a ';' only if the prefixed table name does |
| IntColumnHandler.DropRefused | src/Storage/IntColumnHandler.php:66 | query() refuses DROP TRIGGER exactly when the trigger name holds a ';' |
| IntColumnHandler.CreateRefused | src/Storage/IntColumnHandlerMySQL.php:21 | CREATE TRIGGER fails exactly when the table or a column name holds a ';': on SQLite through the handler's guard, on MySQL through query() |
| IntColumnHandler.TriggerPhaseFails | src/Storage/IntColumnHandler.php:61-70 | on both engines the trigger phase throws the ';' InvalidArgumentException exactly when the table or a column name holds a ';' |
| IntColumnHandler.ReplacedInstalls | src/Storage/IntColumnHandler.php:66-69 | after a round for op passes, the trigger of that name fires on op only and assigns every shadow |
| IntColumnHandler.ReplacedKeeps | src/Storage/IntColumnHandler.php:66 | a round leaves every trigger with another name unchanged |
| IntColumnHandler.TriggerPhaseInstalls | src/Storage/IntColumnHandler.php:61-70 | after both rounds pass, the update and the insert triggers are installed, each firing on its event and assigning every shadow |
| IntColumnHandler.TriggerMaintainsShadows | src/Storage/IntColumnHandler.php:54-56 | firing the installed trigger on a row fails exactly when a shadow does not fit the engine's column, and otherwise sets every shadow column to the engine's shadow value of its string column and leaves the other columns alone |
| IntColumnHandler.IntColumnHandler.constructor | src/Storage/IntColumnHandler.php:25-27 | the handler keeps the given (MySQL or SQLite) connection |
| IntColumnHandler.IntColumnHandler.Create | src/Storage/IntColumnHandler.php:32-73 | a missing table throws with nothing changed; if no shadow is missing nothing changes and [] is returned; otherwise the missing shadows are added and returned in input order and both triggers are replaced |
| IntColumnHandler.IntColumnHandler.AddIntColumns | src/Storage/IntColumnHandler.php:47-57 | the loop adds exactly the missing shadow columns, stops at the first exception, and collects one body part per column |
| IntColumnHandler.IntColumnHandler.AddIntColumn | src/Storage/IntColumnHandler.php:50-53 | a shadow column is added exactly when it was missing, and throws if the table is missing |
| IntColumnHandler.IntColumnHandler.ReplaceTriggers | src/Storage/IntColumnHandler.php:61-70 | the new triggers and log are those of the update round followed by the insert round |
| IntColumnHandler.IntColumnHandler.ReplaceTrigger | src/Storage/IntColumnHandler.php:62-69 | one round drops the trigger by name (ending the round if query() refuses it) and, with a non-empty body, creates it through the dialect |
| IntColumnHandler.IntColumnHandler.Delete | src/Storage/IntColumnHandler.php:112-114 | delete() changes nothing |
| IntColumnHandlerMySQL.CreateBody | src/Storage/IntColumnHandlerMySQL.php:13-15 | the body holds a ';' exactly when one of the column names does |
| IntColumnHandlerMySQL.TriggerStatement | src/Storage/IntColumnHandlerMySQL.php:21 | the CREATE TRIGGER statement holds a ';' exactly when the name, the table or the body does |
| IntColumnHandlerMySQL.TriggerDefinition | src/Storage/IntColumnHandlerMySQL.php:21 | the trigger runs BEFORE the single event and sets the NEW row's shadows |
| IntColumnHandlerMySQL.CreateTrigger | src/Storage/IntColumnHandlerMySQL.php:20-22 | query() refuses a statement holding a ';' with nothing changed; otherwise the trigger is installed and its statement logged; tables, indexes and functions are unchanged |
| IntColumnHandlerSQLite.CreateBody | src/Storage/IntColumnHandlerSQLite.php:13-15 | the body holds a ';' exactly when a column name does, and begins with the shadow column |
| IntColumnHandlerSQLite.UpdateTarget | src/Storage/IntColumnHandlerSQLite.php:21-25 | the UPDATE target is the prefixed name after its last '.', and the whole name when it has none |
| IntColumnHandlerSQLite.UpdateTargetDelimiter | src/Storage/IntColumnHandlerSQLite.php:21-25 | the UPDATE target holds a ';' only if the prefixed name does |
| IntColumnHandlerSQLite.TriggerQueryDelimiter | src/Storage/IntColumnHandlerSQLite.php:26-36 | the guarded query holds a ';' exactly when the trigger name, the table or the body does |
| IntColumnHandlerSQLite.TriggerDefinition | src/Storage/IntColumnHandlerSQLite.php:26-30 | the trigger runs AFTER the single event and updates the row of the unqualified table |
| IntColumnHandlerSQLite.CreateTrigger | src/Storage/IntColumnHandlerSQLite.php:20-38 | a ';' in the query throws InvalidArgumentException with nothing changed; otherwise the trigger is installed and the query plus "; END" logged |
| IntColumnHandlerPostgreSQL.GetFunctionName | src/Storage/IntColumnHandlerPostgreSQL.php:126-128 | the function name is the prefixed table and the shadow column joined by '_' |
| IntColumnHandlerPostgreSQL.FunctionNameInjective | src/Storage/IntColumnHandlerPostgreSQL.php:126-128 | different shadow columns of a table get different function names, which hold a ';' only if the table or the column does |
| IntColumnHandlerPostgreSQL.FunctionQueryDelimiter | src/Storage/IntColumnHandlerPostgreSQL.php:81-86 | the function query holds a ';' exactly when the function name or a column name does |
| IntColumnHandlerPostgreSQL.GuardMeaning | src/Storage/IntColumnHandlerPostgreSQL.php:79-86 | createTriggerFunction() throws exactly when the prefixed table or the column holds a ';' |
| IntColumnHandlerPostgreSQL.TriggerDefinition | src/Storage/IntColumnHandlerPostgreSQL.php:106-112 | the trigger runs BEFORE INSERT OR UPDATE and executes the column's function |
| IntColumnHandlerPostgreSQL.FunctionAdded | src/Storage/IntColumnHandlerPostgreSQL.php:79-88 | the function assigning the shadow from the column exists afterwards; everything else is unchanged |
| IntColumnHandlerPostgreSQL.TriggerAdded | src/Storage/IntColumnHandlerPostgreSQL.php:100-113 | the trigger named after the shadow column on the prefixed table executes that function; everything else is unchanged |
| IntColumnHandlerPostgreSQL.ColumnAdded | src/Storage/IntColumnHandlerPostgreSQL.php:51-62 | addField and addIndex pass exactly when the column and index are new; the table gains the column and the index lists the shadow column then the index columns |
| IntColumnHandlerPostgreSQL.ColumnStep | src/Storage/IntColumnHandlerPostgreSQL.php:45-64 | one column adds something exactly when its shadow is missing, and leaves everything unchanged otherwise |
| IntColumnHandlerPostgreSQL.ColumnLog | src/Storage/IntColumnHandlerPostgreSQL.php:87-112 | a column whose shadow is missing sends three statements unless the guard throws first, and an existing one sends none |
| IntColumnHandlerPostgreSQL.RenderAllAppend | src/Storage/IntColumnHandlerPostgreSQL.php:87-112 | rendering the statements of two stretches of the loop gives the log of both |
| IntColumnHandlerPostgreSQL.CreateFromAdded | src/Storage/IntColumnHandlerPostgreSQL.php:44-66 | the returned shadows are exactly those added to the table, each missing before |
| IntColumnHandlerPostgreSQL.CreateFromNothingNew | src/Storage/IntColumnHandlerPostgreSQL.php:44-66 | when every shadow exists the loop returns [] and changes nothing |
| IntColumnHandlerPostgreSQL.CreateIdempotent | src/Storage/IntColumnHandlerPostgreSQL.php:32-67 | running create() again on the schema it produced adds nothing and changes nothing |
| IntColumnHandlerPostgreSQL.CreateFromPasses | src/Storage/IntColumnHandlerPostgreSQL.php:44-66 | with no ';' in the names and no clashing index, the loop never throws |
| IntColumnHandlerPostgreSQL.CreateFromKeeps | src/Storage/IntColumnHandlerPostgreSQL.php:44-66 | a column already fully installed stays installed through the loop |
| IntColumnHandlerPostgreSQL.CreateFromInstalls | src/Storage/IntColumnHandlerPostgreSQL.php:44-66 | when the loop passes every column whose shadow was missing has its function, trigger, column and index |
| IntColumnHandlerPostgreSQL.TriggerMaintainsShadow | src/Storage/IntColumnHandlerPostgreSQL.php:81-111 | the installed trigger fails exactly when the column's value exceeds INTEGER, and otherwise sets the shadow to the regex shadow value of the column and leaves every other column alone |
| IntColumnHandlerPostgreSQL.IntColumnHandlerPostgreSQL.constructor | src/Storage/IntColumnHandlerPostgreSQL.php:25-27 | the handler keeps the given PostgreSQL connection |
| IntColumnHandlerPostgreSQL.IntColumnHandlerPostgreSQL.Create | src/Storage/IntColumnHandlerPostgreSQL.php:32-67 | if an input column is missing it returns [] with nothing changed; otherwise result, schema and log are those of the column loop, which stops at the first exception |
| IntColumnHandlerPostgreSQL.IntColumnHandlerPostgreSQL.AddIntColumn | src/Storage/IntColumnHandlerPostgreSQL.php:45-64 | one round of the loop has the effect of ColumnStep and logs that column's statements |
| IntColumnHandlerPostgreSQL.IntColumnHandlerPostgreSQL.AddMissingIntColumn | src/Storage/IntColumnHandlerPostgreSQL.php:48-63 | for a missing shadow: function, trigger, column and index are created in that order, stopping at the first exception |
| IntColumnHandlerPostgreSQL.IntColumnHandlerPostgreSQL.CreateShadowFunction | src/Storage/IntColumnHandlerPostgreSQL.php:79-88 | the function is created unless the table or the column holds a ';', which throws with nothing changed |
| IntColumnHandlerPostgreSQL.IntColumnHandlerPostgreSQL.InstallIntColumn | src/Storage/IntColumnHandlerPostgreSQL.php:49-62 | the trigger is replaced, then column and index are added, and the drop and create statements are logged |
| IntColumnHandlerPostgreSQL.IntColumnHandlerPostgreSQL.AddColumnAndIndex | src/Storage/IntColumnHandlerPostgreSQL.php:51-62 | the shadow column and its index are added as ColumnAdded says, with nothing logged |
| IntColumnHandlerPostgreSQL.IntColumnHandlerPostgreSQL.CreateTriggerFunction | src/Storage/IntColumnHandlerPostgreSQL.php:79-88 | a ';' in the query throws with nothing changed; otherwise the function is recorded and the statement logged |
| IntColumnHandlerPostgreSQL.TriggerStatementsAccepted | src/Storage/IntColumnHandlerPostgreSQL.php:105-111 | with no ';' in the names query() accepts both statements, the CREATE TRIGGER's own trailing ';' being stripped |
| IntColumnHandlerPostgreSQL.IntColumnHandlerPostgreSQL.CreateTrigger | src/Storage/IntColumnHandlerPostgreSQL.php:100-113 | query() refuses either statement holding a ';', leaving the state reached so far; otherwise the trigger is dropped then created, executing the column's function, and both statements are logged |
| FieldStorageSubscriber.SubscribedEvents | src/EventSubscriber/FieldStorageSubscriber.php:73-84 | exactly the field storage create and entity type create events are subscribed, each with one listener at priority 100 |
| FieldStorageSubscriber.FieldNames | src/EventSubscriber/FieldStorageSubscriber.php:125-128 | the fields visited are the type's dynamic reference fields plus the passed definition when it is of this type, and nothing else |
| FieldStorageSubscriber.RevisionTableOf | src/EventSubscriber/FieldStorageSubscriber.php:167 | the shared revision table is the revision data table unless that is falsy, else the revision table |
| FieldStorageSubscriber.Unique | src/EventSubscriber/FieldStorageSubscriber.php:169 | array_unique keeps the same set of columns with no repeats |
| FieldStorageSubscriber.AddColumn | src/EventSubscriber/FieldStorageSubscriber.php:152-157 | the column is appended to its table (de-duplicated for shared revision tables), the table's index column is overwritten, and a new table is appended to the order |
| FieldStorageSubscriber.TablesOf | src/EventSubscriber/FieldStorageSubscriber.php:143-173 | a field contributes to at most two tables: its own and one revision table |
| FieldStorageSubscriber.CollectAppend | src/EventSubscriber/FieldStorageSubscriber.php:141-179 | collecting a + b is collecting a and then b |
| FieldStorageSubscriber.SkippedField | src/EventSubscriber/FieldStorageSubscriber.php:142-151 | a field whose table lookups throw is skipped: collecting without it gives the same plan |
| FieldStorageSubscriber.AddColumnIncludes | src/EventSubscriber/FieldStorageSubscriber.php:152 | adding a column keeps every earlier table and column and includes the new one |
| FieldStorageSubscriber.CollectFieldIncludes | src/EventSubscriber/FieldStorageSubscriber.php:141-179 | handling one field never loses a collected table or column |
| FieldStorageSubscriber.CollectFieldInTable | src/EventSubscriber/FieldStorageSubscriber.php:152-168 | each table a field belongs to lists the field's target_id column afterwards |
| FieldStorageSubscriber.IncludesTransitive | src/EventSubscriber/FieldStorageSubscriber.php:141-179 | inclusion of plans composes across loop iterations |
| FieldStorageSubscriber.CollectIncludes | src/EventSubscriber/FieldStorageSubscriber.php:141-179 | the whole loop keeps everything collected before it |
| FieldStorageSubscriber.CollectCovers | src/EventSubscriber/FieldStorageSubscriber.php:141-179 | every table of every visited field ends up in the plan with that field's column |
| FieldStorageSubscriber.CollectFieldElsewhere | src/EventSubscriber/FieldStorageSubscriber.php:155-172 | a field leaves the index columns of tables it does not belong to unchanged |
| FieldStorageSubscriber.IndexColumnsLastWins | src/EventSubscriber/FieldStorageSubscriber.php:155-172 | a table's index columns are those of the last field that belongs to it |
| FieldStorageSubscriber.KeepsIndexColumns | src/EventSubscriber/FieldStorageSubscriber.php:155-172 | fields not belonging to a table keep its index columns |
| FieldStorageSubscriber.SharedRevisionUnique | src/EventSubscriber/FieldStorageSubscriber.php:166-169 | after a shared revision table receives a column, its column list has no repeats |
| FieldStorageSubscriber.HandlerCreateAdds | src/EventSubscriber/FieldStorageSubscriber.php:182 | what create() returns are shadow columns of the input, missing before and added to exactly that table |
| FieldStorageSubscriber.CreateAllAdds | src/EventSubscriber/FieldStorageSubscriber.php:181-183 | when the loop passes it has one entry per table in order, tables only grow, and each returned column was missing before and exists after |
| FieldStorageSubscriber.GrowsOnce | src/EventSubscriber/FieldStorageSubscriber.php:182 | adding columns to one table keeps every table and column |
| FieldStorageSubscriber.BulkUpdateOf | src/EventSubscriber/FieldStorageSubscriber.php:184-188 | a table gets at most one UPDATE, exactly when create() returned a non-empty list, setting its first new column to 0 |
| FieldStorageSubscriber.BulkUpdatesExactly | src/EventSubscriber/FieldStorageSubscriber.php:184-188 | an UPDATE is issued exactly for the tables with new columns, on the first of them, to 0 |
| FieldStorageSubscriber.HandleNeedsFields | src/EventSubscriber/FieldStorageSubscriber.php:134 | nothing happens unless the storage is SQL and the entity type has at least one field of this type |
| FieldStorageSubscriber.HandleUpdatesNewColumns | src/EventSubscriber/FieldStorageSubscriber.php:123-190 | after a passing run, an UPDATE is logged exactly for a table that gained columns, on one of its new shadow columns, with value 0 |
| FieldStorageSubscriber.CollectTables | src/EventSubscriber/FieldStorageSubscriber.php:141-179 | the loop over the fields builds the plan Collect specifies |
| FieldStorageSubscriber.FieldStorageSubscriber.constructor | src/EventSubscriber/FieldStorageSubscriber.php:63-68 | the subscriber keeps the connection |
| FieldStorageSubscriber.FieldStorageSubscriber.OnFieldStorage | src/EventSubscriber/FieldStorageSubscriber.php:92-95 | a field storage event handles the field's entity type with the definition passed |
| FieldStorageSubscriber.FieldStorageSubscriber.OnEntityType | src/EventSubscriber/FieldStorageSubscriber.php:103-105 | an entity type event handles the type without a definition |
| FieldStorageSubscriber.FieldStorageSubscriber.HandleEntityType | src/EventSubscriber/FieldStorageSubscriber.php:123-190 | result, schema and log are those of Handle: collect, create per table, then the bulk updates |
| FieldStorageSubscriber.FieldStorageSubscriber.CreateTables | src/EventSubscriber/FieldStorageSubscriber.php:180-183 | the loop over the tables has the effect of CreateAll |
| FieldStorageSubscriber.FieldStorageSubscriber.CreateFor | src/EventSubscriber/FieldStorageSubscriber.php:182 | one create() call has the effect of the engine's handler |
| FieldStorageSubscriber.FieldStorageSubscriber.UpdateNew | src/EventSubscriber/FieldStorageSubscriber.php:184-188 | the bulk UPDATEs are logged in order and the schema is unchanged |
| Tables.AddNextBaseTable | src/Query/Tables.php:18-28 | the join column gains "_int" exactly for a dynamic reference field on a type with an id key and integer ids; all other arguments pass through unchanged |
| Tables.OtherFieldsUnchanged | src/Query/Tables.php:22 | other field types join on the column as given |
| Tables.JoinColumnByIdType | src/Query/Tables.php:21-27 | a dynamic reference join uses target_id_int for integer-id types and target_id otherwise |
| DynamicEntityReference.AfterSetValue | src/Plugin/DataType/DynamicEntityReference.php:56-74 | setValue() forgets the old state; it throws exactly for a non-scalar, or a scalar without a target entity type; an entity is held as target, a scalar as id |
| DynamicEntityReference.AfterGetTarget | src/Plugin/DataType/DynamicEntityReference.php:37-51 | getTarget() returns a cached target; otherwise it loads the id with the definition's type or the parent's; the entity type follows a loaded target |
| DynamicEntityReference.SetValueForgets | src/Plugin/DataType/DynamicEntityReference.php:57-58 | the result of setValue() does not depend on the previous target or id |
| DynamicEntityReference.GetTargetCaches | src/Plugin/DataType/DynamicEntityReference.php:38 | once a target is found, later calls return it whatever the store then holds |
| DynamicEntityReference.GetTargetRetries | src/Plugin/DataType/DynamicEntityReference.php:38-43 | a failed load leaves the state as it was, so a later call loads again |
| DynamicEntityReference.SetEntityThenGet | src/Plugin/DataType/DynamicEntityReference.php:65-67 | getTarget() after setting an entity returns that entity |
| DynamicEntityReference.SetIdThenGet | src/Plugin/DataType/DynamicEntityReference.php:41-74 | getTarget() after setting an id loads that id with the definition's entity type |
| DynamicEntityReference.DynamicEntityReference.constructor | src/Plugin/DataType/DynamicEntityReference.php:32 | a new reference has no target and no id, and its definition's entity type is the one given |
| DynamicEntityReference.DynamicEntityReference.SetValue | src/Plugin/DataType/DynamicEntityReference.php:56-79 | the new state is AfterSetValue's, and the parent is notified once when notify holds and a parent exists |
| DynamicEntityReference.DynamicEntityReference.GetTarget | src/Plugin/DataType/DynamicEntityReference.php:37-51 | the new state and the result are AfterGetTarget's, and nobody is notified |
| LegacyDynamicEntityReference.AfterSetValue | lib/Drupal/dynamic_entity_reference/Plugin/DataType/DynamicEntityReference.php:86-100 | it throws exactly for a non-scalar, or a scalar without a target entity type; NULL or an entity becomes the target, a scalar the id |
| LegacyDynamicEntityReference.AfterGetTarget | lib/Drupal/dynamic_entity_reference/Plugin/DataType/DynamicEntityReference.php:54-61 | a cached target or a missing id leaves the state as it is; otherwise it loads with the parent's target_type |
| LegacyDynamicEntityReference.TargetIdentifier | lib/Drupal/dynamic_entity_reference/Plugin/DataType/DynamicEntityReference.php:66-73 | the identifier is the id when set, else the target's id, else none |
| LegacyDynamicEntityReference.AfterGetString | lib/Drupal/dynamic_entity_reference/Plugin/DataType/DynamicEntityReference.php:110-115 | getString() is the loaded target's label, or '' when nothing loads |
| LegacyDynamicEntityReference.SetValueForgets | lib/Drupal/dynamic_entity_reference/Plugin/DataType/DynamicEntityReference.php:87-88 | setValue() does not depend on the previous state |
| LegacyDynamicEntityReference.GetTargetCaches | lib/Drupal/dynamic_entity_reference/Plugin/DataType/DynamicEntityReference.php:55 | once a target is found, later calls return it |
| LegacyDynamicEntityReference.GetTargetRetries | lib/Drupal/dynamic_entity_reference/Plugin/DataType/DynamicEntityReference.php:55-58 | a failed load changes nothing, so a later call loads from the later store |
| LegacyDynamicEntityReference.IdentifierAfterSetValue | lib/Drupal/dynamic_entity_reference/Plugin/DataType/DynamicEntityReference.php:66-100 | after setting an id the identifier is that id; after setting an entity it is the entity's id; after NULL it is none |
| LegacyDynamicEntityReference.StringAfterSetValue | lib/Drupal/dynamic_entity_reference/Plugin/DataType/DynamicEntityReference.php:92-115 | after setting an entity getString() is its label; after NULL it is '' |
| LegacyDynamicEntityReference.DynamicEntityReference.constructor | lib/Drupal/dynamic_entity_reference/Plugin/DataType/DynamicEntityReference.php:48 | a new reference has no target and no id |
| LegacyDynamicEntityReference.DynamicEntityReference.SetValue | lib/Drupal/dynamic_entity_reference/Plugin/DataType/DynamicEntityReference.php:86-105 | the new state is AfterSetValue's, and the parent is notified when notify holds and a parent exists |
| LegacyDynamicEntityReference.DynamicEntityReference.GetTarget | lib/Drupal/dynamic_entity_reference/Plugin/DataType/DynamicEntityReference.php:54-61 | state and result are AfterGetTarget's |
| LegacyDynamicEntityReference.DynamicEntityReference.GetValue | lib/Drupal/dynamic_entity_reference/Plugin/DataType/DynamicEntityReference.php:78-81 | getValue() behaves as getTarget() |
| LegacyDynamicEntityReference.DynamicEntityReference.GetTargetIdentifier | lib/Drupal/dynamic_entity_reference/Plugin/DataType/DynamicEntityReference.php:66-73 | the identifier of the current state |
| LegacyDynamicEntityReference.DynamicEntityReference.GetString | lib/Drupal/dynamic_entity_reference/Plugin/DataType/DynamicEntityReference.php:110-115 | state and result are AfterGetString's |
| DynamicEntityReferenceItem.TargetTypes | src/Plugin/Field/FieldType/DynamicEntityReferenceItem.php:462-473 | a content type is referenceable exactly when it is unlisted under exclude, or listed under include; its label is kept |
| DynamicEntityReferenceItem.IncludeExcludePartition | src/Plugin/Field/FieldType/DynamicEntityReferenceItem.php:466-471 | for the same list, include and exclude split the content types into two disjoint parts that cover them |
| DynamicEntityReferenceItem.EmptyListExtremes | src/Plugin/Field/FieldType/DynamicEntityReferenceItem.php:467-470 | an empty or NULL list excludes nothing or includes nothing |
| DynamicEntityReferenceItem.DefaultReferencesEverything | src/Plugin/Field/FieldType/DynamicEntityReferenceItem.php:49-54 | the default settings allow every content type |
| DynamicEntityReferenceItem.MainPropertyName | src/Plugin/Field/FieldType/DynamicEntityReferenceItem.php:331-334 | there is no single main property |
| DynamicEntityReferenceItem.AfterOnChange | src/Plugin/Field/FieldType/DynamicEntityReferenceItem.php:128-139 | target_type: the entity property's type follows target_type unless a target loads; entity: target_type and target_id follow the entity, or it fails on NULL; target_id: the entity property is reset to the id |
| DynamicEntityReferenceItem.SetFields | src/Plugin/Field/FieldType/DynamicEntityReferenceItem.php:351 | writing the array's properties sets target_id, target_type and the entity property as given |
| DynamicEntityReferenceItem.AfterSetValue | src/Plugin/Field/FieldType/DynamicEntityReferenceItem.php:339-382 | a non-array value goes to the entity property followed by onChange('entity') whatever notify says; an array with an empty type and a non-empty id throws; the parent is notified only on success with notify and a parent |
| DynamicEntityReferenceItem.BothGivenMustAgree | src/Plugin/Field/FieldType/DynamicEntityReferenceItem.php:365-375 | with id, type and entity all given, it passes exactly when they agree or the id is the new-entity marker for a new entity |
| DynamicEntityReferenceItem.IdOnlyIsLoadedLazily | src/Plugin/Field/FieldType/DynamicEntityReferenceItem.php:354-357 | with only an id given it passes exactly when a type is given, and the entity property holds the id unloaded |
| DynamicEntityReferenceItem.EntityOnlySetsBoth | src/Plugin/Field/FieldType/DynamicEntityReferenceItem.php:358-360 | with only an entity given, target_type and target_id (or the new-entity marker) are taken from it |
| DynamicEntityReferenceItem.EntityValueSetsBoth | src/Plugin/Field/FieldType/DynamicEntityReferenceItem.php:343 | an entity object assigned to the item replaces target_type and target_id by its own, with notify TRUE or FALSE |
| DynamicEntityReferenceItem.ScalarValueLoadsAtOnce | src/Plugin/Field/FieldType/DynamicEntityReferenceItem.php:343 | a scalar id assigned to the item is loaded at once; the item then takes the loaded entity's type and the id, and fails on the missing entity when nothing loads |
| DynamicEntityReferenceItem.AfterPreSave | src/Plugin/Field/FieldType/DynamicEntityReferenceItem.php:398-409 | without a new entity nothing changes; with one, it is saved if still new and target_id and target_type are taken from it |
| DynamicEntityReferenceItem.PreSavedItemIsConsistent | src/Plugin/Field/FieldType/DynamicEntityReferenceItem.php:398-409 | after preSave, handing the item's target_id, target_type and entity back to setValue() passes its agreement check |
| DynamicEntityReferenceItem.DynamicEntityReferenceItem.constructor | src/Plugin/Field/FieldType/DynamicEntityReferenceItem.php:44 | a new item is empty and nobody was notified |
| DynamicEntityReferenceItem.DynamicEntityReferenceItem.OnChange | src/Plugin/Field/FieldType/DynamicEntityReferenceItem.php:128-139 | the new properties and outcome are AfterOnChange's |
| DynamicEntityReferenceItem.DynamicEntityReferenceItem.SetValue | src/Plugin/Field/FieldType/DynamicEntityReferenceItem.php:339-382 | the new properties and outcome are AfterSetValue's: onChange('entity') syncs target_id and target_type whatever $notify is, and the parent is notified once only when $notify is set and the item has a parent |
| DynamicEntityReferenceItem.DynamicEntityReferenceItem.GetValue | src/Plugin/Field/FieldType/DynamicEntityReferenceItem.php:387-393 | the values are returned, and a non-empty target_type becomes the entity property's target type |
| DynamicEntityReferenceItem.DynamicEntityReferenceItem.PreSave | src/Plugin/Field/FieldType/DynamicEntityReferenceItem.php:398-409 | the new properties and outcome are AfterPreSave's |
| FieldItemList.LoadMultiple | src/DynamicEntityReferenceFieldItemList.php:48-50 | loadMultiple returns exactly the wanted ids that load, each mapped to its entity |
| FieldItemList.Referenced | src/DynamicEntityReferenceFieldItemList.php:24-62 | every delta returned is an item's delta |
| FieldItemList.ReferencedAscending | src/DynamicEntityReferenceFieldItemList.php:57-58 | the result is ordered by delta |
| FieldItemList.ReferencedExactly | src/DynamicEntityReferenceFieldItemList.php:36-56 | a delta maps to an entity exactly when its item holds a new entity or its id loads with its type, and then to that entity |
| FieldItemList.IdsStep | src/DynamicEntityReferenceFieldItemList.php:40-41 | filing an item's id under its type keeps the ids grouped by type and delta |
| FieldItemList.GroupStep | src/DynamicEntityReferenceFieldItemList.php:36-43 | an item with a new entity goes to the result directly and one with an id is queued under its type |
| FieldItemList.FoundContributes | src/DynamicEntityReferenceFieldItemList.php:51-54 | every delta found by the per-type loads is a queued item of that type, mapped to its entity |
| FieldItemList.ContributorFound | src/DynamicEntityReferenceFieldItemList.php:47-54 | every queued item whose id loads is found by its type's load |
| FieldItemList.LoadStep | src/DynamicEntityReferenceFieldItemList.php:47-55 | loading one more type keeps the loop invariant |
| FieldItemList.LoadEnd | src/DynamicEntityReferenceFieldItemList.php:46-56 | after all types, the entities are exactly those of the contributing deltas, and every queued type was loaded |
| FieldItemList.ReferencedEntities | src/DynamicEntityReferenceFieldItemList.php:24-62 | the result is Referenced, and each queued type is loaded exactly once |
| FieldItemList.GroupQueued | src/DynamicEntityReferenceFieldItemList.php:36-43 | the first loop groups the items as GroupStep describes |
| FieldItemList.LoadQueued | src/DynamicEntityReferenceFieldItemList.php:46-56 | the load loop visits each queued type once and collects what it finds |
| FieldItemList.ByDelta | src/DynamicEntityReferenceFieldItemList.php:57-58 | ksort yields the contributions in delta order |
| FieldItemList.Resolve | src/DynamicEntityReferenceFieldItemList.php:90-97 | an entry without a uuid is kept; one with a uuid is kept with its id exactly when the uuid resolves, and dropped otherwise |
| FieldItemList.Processed | src/DynamicEntityReferenceFieldItemList.php:67-106 | no processed entry has a uuid left, and there are no more entries than before |
| FieldItemList.ProcessedKeepsResolved | src/DynamicEntityReferenceFieldItemList.php:90-103 | when every uuid resolves, every delta is kept, in order, resolved |
| FieldItemList.DroppedEntry | src/DynamicEntityReferenceFieldItemList.php:96-103 | an unknown uuid drops its entry and the later deltas close the gap |
| FieldItemList.ProcessedAppend | src/DynamicEntityReferenceFieldItemList.php:103 | processing distributes over concatenation |
| FieldItemList.ResolveEnd | src/DynamicEntityReferenceFieldItemList.php:81-100 | after all types, a delta remains exactly when it resolves, and with its resolved value |
| FieldItemList.ProcessDefaultValue | src/DynamicEntityReferenceFieldItemList.php:67-106 | the result is Processed: uuids replaced by ids, unknown ones dropped, deltas renumbered |
| FieldItemList.GroupUuids | src/DynamicEntityReferenceFieldItemList.php:74-79 | the uuids are grouped by type and delta |
| FieldItemList.ResolveTypes | src/DynamicEntityReferenceFieldItemList.php:81-100 | every type's uuids are resolved |
| FieldItemList.Renumber | src/DynamicEntityReferenceFieldItemList.php:103 | array_values gives the Processed list |
| FieldItemList.Submitted | src/DynamicEntityReferenceFieldItemList.php:111-132 | a successful submit keeps every delta |
| FieldItemList.SubmittedExactly | src/DynamicEntityReferenceFieldItemList.php:116-130 | submit succeeds exactly when every entry's id loads, and then each entry carries its entity's uuid instead of the id |
| FieldItemList.RoundTrip | src/DynamicEntityReferenceFieldItemList.php:67-132 | processing a submitted default value gives back the entries with the stored ids |
| FieldItemList.DefaultValuesFormSubmit | src/DynamicEntityReferenceFieldItemList.php:111-132 | the loops compute Submitted |
| FieldItemList.SubmittedErrIs | src/DynamicEntityReferenceFieldItemList.php:129 | the only failure is calling uuid() on a missing entity |
| ValidDynamicReference.Validate | src/Plugin/Validation/Constraint/ValidDynamicReferenceConstraintValidator.php:22-39 | NULL is valid; otherwise one violation with the type and id exactly when the type is not allowed or a non-empty id does not load |
| ValidDynamicReference.EmptyReferenceIsValid | src/Plugin/Validation/Constraint/ValidDynamicReferenceConstraintValidator.php:31-34 | an empty id with an allowed type is valid |
| ValidDynamicReference.SetReferenceValidates | src/Plugin/Validation/Constraint/ValidDynamicReferenceConstraintValidator.php:35-38 | an item set to an allowed type and an id validates exactly when the id loads |
| ValidDynamicReference.SetEntityValidates | src/Plugin/Validation/Constraint/ValidDynamicReferenceConstraintValidator.php:30-38 | an item set to an entity of an allowed type validates |
| ValidDynamicReference.DisallowedTypeIsReported | src/Plugin/Validation/Constraint/ValidDynamicReferenceConstraintValidator.php:30-37 | a type outside the allowed set gets exactly the one "does not exist" violation |
| DynamicEntityReferenceOptions.IsApplicable | src/Plugin/Field/FieldWidget/DynamicEntityReferenceOptionsTrait.php:26-28 | the widget applies exactly when the field can reference one entity type |
| DynamicEntityReferenceOptions.IncludingOneTypeIsApplicable | src/Plugin/Field/FieldWidget/DynamicEntityReferenceOptionsTrait.php:26-28 | a field that includes just one content type is applicable |
| DynamicEntityReferenceOptions.PutChoice | src/Plugin/Field/FieldWidget/DynamicEntityReferenceOptionsTrait.php:108 | adding a choice while flattening keeps the list flat and adds its key |
| DynamicEntityReferenceOptions.Flatten | src/Plugin/Field/FieldWidget/DynamicEntityReferenceOptionsTrait.php:107-109 | flattening gives a flat list with exactly the offered keys, keeping a leading choice first |
| DynamicEntityReferenceOptions.Selected | src/Plugin/Field/FieldWidget/DynamicEntityReferenceOptionsTrait.php:37-47 | every selected value is an offered key, and there is at most one per item |
| DynamicEntityReferenceOptions.SelectedExactly | src/Plugin/Field/FieldWidget/DynamicEntityReferenceOptionsTrait.php:38-45 | a value is selected exactly when it is offered and is some item's "type-id" |
| DynamicEntityReferenceOptions.SelectedKeepsOrder | src/Plugin/Field/FieldWidget/DynamicEntityReferenceOptionsTrait.php:38-45 | when every item's value is offered the selection lists them in item order |
| DynamicEntityReferenceOptions.Massaged | src/Plugin/Field/FieldWidget/DynamicEntityReferenceOptionsTrait.php:60 | the split type, and the id when present, contain no '-' |
| DynamicEntityReferenceOptions.MassageFormValues | src/Plugin/Field/FieldWidget/DynamicEntityReferenceOptionsTrait.php:58-63 | every value is split, in place and in order |
| DynamicEntityReferenceOptions.MassageRoundTrip | src/Plugin/Field/FieldWidget/DynamicEntityReferenceOptionsTrait.php:39-60 | splitting an option key built from a type and an id without '-' gives back that type and id |
| DynamicEntityReferenceOptions.MassageTruncatesId | src/Plugin/Field/FieldWidget/DynamicEntityReferenceOptionsTrait.php:60 | an id with a '-' loses everything after it |
| DynamicEntityReferenceOptions.MassageWithoutDash | src/Plugin/Field/FieldWidget/DynamicEntityReferenceOptionsTrait.php:60 | a value without '-' becomes the type and leaves no id |
| DynamicEntityReferenceOptions.EmptyLabel | src/Plugin/Field/FieldWidget/DynamicEntityReferenceOptionsTrait.php:122-131 | 'N/A' exactly for button widgets, otherwise '- None -' or '- Select a value -' by the empty option |
| DynamicEntityReferenceOptions.SwitchIsEmptyLabel | src/Plugin/Field/FieldWidget/DynamicEntityReferenceOptionsTrait.php:80-91 | the switch in getOptions() picks the same label as getEmptyLabel() |
| DynamicEntityReferenceOptions.Without | src/Plugin/Field/FieldWidget/DynamicEntityReferenceOptionsTrait.php:93 | removing a key keeps exactly the other keys |
| DynamicEntityReferenceOptions.WithoutAbsent | src/Plugin/Field/FieldWidget/DynamicEntityReferenceOptionsTrait.php:93 | removing an absent key changes nothing |
| DynamicEntityReferenceOptions.WithEmptyOption | src/Plugin/Field/FieldWidget/DynamicEntityReferenceOptionsTrait.php:93 | '_none' with its label comes first, followed by the other options |
| DynamicEntityReferenceOptions.EmptyOptionFirst | src/Plugin/Field/FieldWidget/DynamicEntityReferenceOptionsTrait.php:79-109 | when an empty option is wanted and no hook alters the list, '_none' comes first; with groups supported it carries getEmptyLabel()'s label and the settable options follow unchanged |
| DynamicEntityReferenceOptions.OptionsWidget.constructor | src/Plugin/Field/FieldWidget/DynamicEntityReferenceOptionsTrait.php:71 | a new widget has no cached options |
| DynamicEntityReferenceOptions.OptionsWidget.GetOptions | src/Plugin/Field/FieldWidget/DynamicEntityReferenceOptionsTrait.php:70-114 | the first call builds and caches the options; later calls return the cache |
| DynamicEntityReferenceOptions.OptionsWidget.GetSelectedOptions | src/Plugin/Field/FieldWidget/DynamicEntityReferenceOptionsTrait.php:33-48 | the selection is checked against the flattened cached options, built on first use |
| DynamicEntityReferenceFormatter.IdsCollected | src/Plugin/Field/FieldFormatter/DynamicEntityReferenceFormatterTrait.php:23-32 | an id is queued under a type exactly when some item of that type has an id and no revision id |
| DynamicEntityReferenceFormatter.RevisionsCollected | src/Plugin/Field/FieldFormatter/DynamicEntityReferenceFormatterTrait.php:23-32 | a revision id is queued under a type exactly when some item of that type has it |
| DynamicEntityReferenceFormatter.Collect | src/Plugin/Field/FieldFormatter/DynamicEntityReferenceFormatterTrait.php:23-32 | the nested loops build the queues of all items of all lists |
| DynamicEntityReferenceFormatter.LoadKeys | src/Plugin/Field/FieldFormatter/DynamicEntityReferenceFormatterTrait.php:36-40 | entity_load_multiple returns exactly the stored entities with queued ids, under their keys |
| DynamicEntityReferenceFormatter.AddRevisions | src/Plugin/Field/FieldFormatter/DynamicEntityReferenceFormatterTrait.php:44-51 | the revision loop fails exactly when a revision does not load, since id() is then called on NULL |
| DynamicEntityReferenceFormatter.AddRevisionsFiles | src/Plugin/Field/FieldFormatter/DynamicEntityReferenceFormatterTrait.php:48-49 | each loaded revision is filed under "id:revision", and entities loaded by id stay unless overwritten |
| DynamicEntityReferenceFormatter.LoadRevisions | src/Plugin/Field/FieldFormatter/DynamicEntityReferenceFormatterTrait.php:45-50 | the loop computes AddRevisions |
| DynamicEntityReferenceFormatter.LoadedEnd | src/Plugin/Field/FieldFormatter/DynamicEntityReferenceFormatterTrait.php:34-52 | after both loops the targets are those TargetEntities specifies |
| DynamicEntityReferenceFormatter.LoadTargets | src/Plugin/Field/FieldFormatter/DynamicEntityReferenceFormatterTrait.php:34-52 | loading succeeds exactly when all revisions load, and then yields TargetEntities |
| DynamicEntityReferenceFormatter.Attach | src/Plugin/Field/FieldFormatter/DynamicEntityReferenceFormatterTrait.php:57-79 | an auto-create item is kept and marked accessible; a missing target empties the item and asks for a rekey; a found one is attached and is accessible if it was already or if viewable |
| DynamicEntityReferenceFormatter.FilterEmpty | src/Plugin/Field/FieldFormatter/DynamicEntityReferenceFormatterTrait.php:84 | exactly the non-empty items are kept |
| DynamicEntityReferenceFormatter.FilterEmptySingle | src/Plugin/Field/FieldFormatter/DynamicEntityReferenceFormatterTrait.php:84 | one item is kept exactly when it is not empty |
| DynamicEntityReferenceFormatter.FilterEmptyAppend | src/Plugin/Field/FieldFormatter/DynamicEntityReferenceFormatterTrait.php:84 | filtering distributes over concatenation, so the non-empty items keep their order and repeats |
| DynamicEntityReferenceFormatter.Attached | src/Plugin/Field/FieldFormatter/DynamicEntityReferenceFormatterTrait.php:55-80 | each item is attached in place, and a rekey is needed exactly when some item lost its target |
| DynamicEntityReferenceFormatter.NothingMissingKeepsPlaces | src/Plugin/Field/FieldFormatter/DynamicEntityReferenceFormatterTrait.php:83-85 | with no dangling item, no item is dropped or moved |
| DynamicEntityReferenceFormatter.MissingTargetIsDropped | src/Plugin/Field/FieldFormatter/DynamicEntityReferenceFormatterTrait.php:61-85 | a dangling item forces a rekey, after which no empty item is left |
| DynamicEntityReferenceFormatter.LoadedTargetIsAttached | src/Plugin/Field/FieldFormatter/DynamicEntityReferenceFormatterTrait.php:38-79 | an item whose id loads gets that entity, and is accessible if already so or viewable |
| DynamicEntityReferenceFormatter.AttachList | src/Plugin/Field/FieldFormatter/DynamicEntityReferenceFormatterTrait.php:56-80 | the item loop computes Attached |
| DynamicEntityReferenceFormatter.PrepareLists | src/Plugin/Field/FieldFormatter/DynamicEntityReferenceFormatterTrait.php:55-86 | each list is attached and rekeyed as Prepared says |
| DynamicEntityReferenceFormatter.PrepareView | src/Plugin/Field/FieldFormatter/DynamicEntityReferenceFormatterTrait.php:18-87 | prepareView fails exactly when a revision does not load; otherwise every list is attached to the loaded targets and rekeyed |

## Left out

- Database: the Drupal schema and connection API (fieldExists, addField, addIndex, query, update, prefixTables) is outside this module. It is modelled from how the handlers use it: schema objects and a statement log, without row data. A trigger's effect on a row is given by the pure `Fire` functions instead.
- Engine dispatch: the service definition choosing a handler per database driver is not part of this model. The subscriber picks `IntColumnHandlerPostgreSQL` on PostgreSQL and `IntColumnHandler` with the MySQL or SQLite dialect otherwise.
- IntColumnHandler.allColumnsExist, DynamicEntityReferenceItem::getAllEntityTypeIds and entityHasIntegerId are not shown. They appear as an explicit check over the schema, an `allowed` set and a `hasIntegerId` function parameter.
- IntColumnHandlerPostgreSQL.IntColumnHandlerPostgreSQL.AddColumnAndIndex: the index's full_spec field definitions are not recorded; only its field list is.
- IntColumnHandlerPostgreSQL: the statements are kept as structured values and rendered to the log; the literal SQL text is only used for the ';' guard.
- ShadowValue.CastShadow: SQLite's handling of signs and leading whitespace is not modelled; only leading ASCII digits are read (the 64-bit saturation is applied when the value is stored).
- ShadowValue.Shadow: MySQL is taken to run in strict mode, as Drupal's driver configures it, so an out-of-range shadow fails the statement; a non-strict server would clamp it instead. PostgreSQL's unsigned 'int' is read as INTEGER, the type of the ::integer cast.
- ShadowValue: the SQLite trigger body has no digit check, so a non-numeric id gets 0 there and NULL on MySQL and PostgreSQL; tests/src/Functional/Update/DerUpdateTest.php:72-73 expects the 0. The code is followed, and `BackendsDisagreeOnStringIds` states the difference.
- Database: core's Connection::query() is not part of this model. Its single-statement check is reconstructed: without allow_delimiter_in_query, a statement that holds a ';' once trailing ';' and whitespace are stripped throws the same InvalidArgumentException as the handlers' own guards.
- IntColumnHandler.TriggerName: PHP's strlen() and substr() count bytes while the model counts characters, so table names are taken as ASCII; a prefixed table name with multi-byte characters would be hashed at a different length.
- Strings.Prefix: substr() is modelled on characters, not bytes, for the same reason.
- sha256, table prefixing, the entity store, revision loading, uuid lookup (loadByProperties), access checks, settable options and the options_list alter hook are parameters, and their results are taken as given.
- Entities: PHP's loose `==` between ids is approximated by comparing their array keys (an integer and its decimal string are equal). getStorage() of an unknown type is read as an empty storage rather than an exception.
- DynamicEntityReferenceItem: core's EntityReferenceItem::onChange, Map::setValue and hasNewEntity (target_id equal to the new-entity marker) are not part of this model and are reconstructed from their documented behaviour.
- DynamicEntityReferenceItem.DynamicEntityReferenceItem.PreSave: the magic-setter notifications that `$this->target_id = …` cascade into are not modelled; the properties are written directly.
- DynamicEntityReferenceItem: the entity property is held by value inside the item, so aliasing between the item and other holders of the same typed data is not captured.
- DynamicEntityReferenceItem: generateSampleValue, calculateDependencies, schema, propertyDefinitions, getSettableOptions and the settings forms are user interface or sample data, not behaviour of the references themselves.
- FieldItemList: core FieldItemList::processDefaultValue and defaultValuesFormSubmit, which the overrides call first, are taken as the identity.
- FieldItemList.ReferencedEntities: the entities fetched through `$item->entity` are not written back into the items' caches.
- DynamicEntityReferenceOptions: t() translation is ignored and labels are plain strings. sanitizeLabel and the alter hook are one function parameter. OptGroup::flattenOptions is modelled for one level of groups.
- DynamicEntityReferenceFormatter: revision_id is an optional number, `empty()` on items is approximated by the item having neither id nor entity, and the change notification of `setValue(NULL)` on an emptied item is not modelled.
- ValidDynamicReference.Validate: PHP's loose `in_array` is read as set membership. The code sends the same "does not exist" message for a disallowed type and for a dangling id, and the model does the same.
- I/O, the cache of configuration, concurrency and the Views integration are outside the model.
