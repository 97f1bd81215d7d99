/** The database connection and the part of its schema the integer column
    handlers read and change: the columns of each table, the indexes, the
    triggers, the PostgreSQL trigger functions, and the statements issued. */
module Database {
  import opened Wrappers
  import opened ShadowValue

  datatype Engine = MySQL | SQLite | PostgreSQL

  /** The rule the engine's trigger bodies apply, with the range of the
      engine's shadow column (see ShadowValue). */
  function RuleOf(engine: Engine): Rule
  {
    match engine
    case MySQL => RegexRule(UnsignedIntMax)
    case PostgreSQL => RegexRule(IntMax)
    case SQLite => CastRule
  }

  /** A column declaration as handed to the schema API. */
  datatype ColumnSpec = ColumnSpec(kind: string, unsigned: bool, notNull: bool)

  /** The declaration of every shadow column: 'int', unsigned, nullable. */
  const IntSpec := ColumnSpec("int", true, false)

  datatype Event = Insert | Update

  /** The operation word the handlers splice into trigger names and SQL. */
  function EventName(e: Event): string
  {
    match e
    case Update => "update"
    case Insert => "insert"
  }

  datatype Timing = Before | After

  /** One "shadow := rule(source)" assignment of a trigger body. */
  datatype Assign = Assign(target: string, source: string)

  /** What a trigger does for each row:
      - SetNew: MySQL's "SET NEW.ci = ..., NEW.cj = ...";
      - UpdateRow: SQLite's "UPDATE table SET ... WHERE ROWID=NEW.ROWID";
      - ExecuteProcedure: PostgreSQL's "EXECUTE PROCEDURE f()". */
  datatype Action =
    | SetNew(assigns: seq<Assign>)
    | UpdateRow(table: string, assigns: seq<Assign>)
    | ExecuteProcedure(procedure: string)

  datatype Trigger = Trigger(timing: Timing, events: set<Event>, action: Action)

  /** Triggers are catalogued under the prefixed table they sit on and their
      name. */
  datatype TriggerKey = TriggerKey(table: string, name: string)

  /** A statement sent to the database: raw SQL, or a bulk UPDATE built with
      the query builder that sets one column of every row to a value. */
  datatype Statement = Sql(text: string) | BulkUpdate(table: string, column: string, value: int)

  predicate IsHexDigit(c: char) { '0' <= c <= '9' || 'a' <= c <= 'f' }

  /** A lower-case hexadecimal digest, at least 8 characters long. */
  type Hex = s: string | |s| >= 8 && forall k :: 0 <= k < |s| ==> IsHexDigit(s[k]) witness "00000000"

  type Row = map<string, Cell>

  /** The message of the InvalidArgumentException that query() and the
      guards of the SQLite and PostgreSQL handlers throw for a ';'. */
  const DelimiterMessage := "; is not supported in SQL strings. Use only one statement at a time."

  /** The characters query() strips from the end of a statement before its
      single-statement check: ';' and whitespace. */
  predicate Trailing(c: char)
  {
    c == ';' || c == ' ' || c == '\t' || c == '\n' || c == '\r' || c == '\0' || c == '\U{000B}' || c == '\U{00A0}'
  }

  /** rtrim() with those characters. */
  function RTrim(s: string): (r: string)
    ensures |r| <= |s| && r == s[..|r|]
    ensures r == [] || !Trailing(r[|r| - 1])
  {
    if s != [] && Trailing(s[|s| - 1]) then RTrim(s[..|s| - 1]) else s
  }

  /** query()'s single-statement protection: unless allow_delimiter_in_query
      is passed, a statement that still holds a ';' once its trailing ';'
      and whitespace are stripped is refused with DelimiterMessage. */
  predicate Refused(sql: string, allowDelimiter: bool)
  {
    !allowDelimiter && ';' in RTrim(sql)
  }

  /** A statement without any ';' is never refused. */
  lemma NoDelimiterAccepted(sql: string, allowDelimiter: bool)
    requires ';' !in sql
    ensures !Refused(sql, allowDelimiter)
  {
  }

  /** A statement ending in a character other than ';' and whitespace is
      checked as it is. */
  lemma RTrimEndsWith(s: string, t: string)
    requires t != [] && !Trailing(t[|t| - 1])
    ensures RTrim(s + t) == s + t
  {
  }

  /** Trailing ';' and whitespace are stripped entirely. */
  lemma {:induction false} RTrimTrailing(s: string, t: string)
    requires forall k :: 0 <= k < |t| ==> Trailing(t[k])
    ensures RTrim(s + t) == RTrim(s)
  {
    if t != [] {
      var init := t[..|t| - 1];
      assert (s + t)[..|s + t| - 1] == s + init;
      assert Trailing((s + t)[|s + t| - 1]) by {
        assert (s + t)[|s + t| - 1] == t[|t| - 1];
      }
      RTrimTrailing(s, init);
      assert RTrim(s + t) == RTrim(s + init);
    } else {
      assert s + t == s;
    }
  }

  /** Runs the assignments of a trigger body on a row, left to right; None
      when a value does not fit its shadow column, which fails the statement
      that fired the trigger. */
  function ApplyAssigns(rule: Rule, row: Row, assigns: seq<Assign>): Option<Row>
    decreases |assigns|
  {
    if assigns == [] then Some(row)
    else
      var a := assigns[0];
      var v := if a.source in row then Shadow(rule, row[a.source]) else Some(Null);
      if v.None? then None else ApplyAssigns(rule, row[a.target := v.value], assigns[1..])
  }

  /** The row a trigger action leaves behind, or None when it fails. */
  function Fire(functions: map<string, Assign>, rule: Rule, action: Action, row: Row): Option<Row>
  {
    match action
    case SetNew(assigns) => ApplyAssigns(rule, row, assigns)
    case UpdateRow(_, assigns) => ApplyAssigns(rule, row, assigns)
    case ExecuteProcedure(f) => if f in functions then ApplyAssigns(rule, row, [functions[f]]) else Some(row)
  }

  /** When no assignment reads a column another one writes, running a body
      fails exactly when some source's shadow does not fit its column. */
  lemma {:induction false} ApplyAssignsDefined(rule: Rule, row: Row, assigns: seq<Assign>)
    decreases |assigns|
    requires forall i :: 0 <= i < |assigns| ==> assigns[i].source in row
    requires forall i, j :: 0 <= i < |assigns| && 0 <= j < |assigns| ==> assigns[i].source != assigns[j].target
    ensures ApplyAssigns(rule, row, assigns).Some? <==>
      forall i :: 0 <= i < |assigns| ==> Shadow(rule, row[assigns[i].source]).Some?
  {
    if assigns != [] {
      var a := assigns[0];
      var v := Shadow(rule, row[a.source]);
      if v.Some? {
        var row' := row[a.target := v.value];
        var rest := assigns[1..];
        assert forall i :: 0 <= i < |rest| ==> rest[i] == assigns[i + 1];
        ApplyAssignsDefined(rule, row', rest);
        assert forall i :: 0 <= i < |rest| ==> row'[rest[i].source] == row[rest[i].source];
      }
    }
  }

  /** When, moreover, a column written twice is written from the same
      source and every shadow fits, running a body sets every target to the
      shadow of its source and leaves every other column alone. */
  lemma {:induction false} ApplyAssignsEffect(rule: Rule, row: Row, assigns: seq<Assign>)
    decreases |assigns|
    requires forall i :: 0 <= i < |assigns| ==> assigns[i].source in row
    requires forall i, j :: 0 <= i < |assigns| && 0 <= j < |assigns| ==> assigns[i].source != assigns[j].target
    requires forall i, j :: 0 <= i < |assigns| && 0 <= j < |assigns| && assigns[i].target == assigns[j].target ==>
      assigns[i].source == assigns[j].source
    requires forall i :: 0 <= i < |assigns| ==> Shadow(rule, row[assigns[i].source]).Some?
    ensures var out := ApplyAssigns(rule, row, assigns);
      out.Some? &&
      (forall i :: 0 <= i < |assigns| ==>
        assigns[i].target in out.value && out.value[assigns[i].target] == Shadow(rule, row[assigns[i].source]).value) &&
      (forall k :: k in row && (forall i :: 0 <= i < |assigns| ==> assigns[i].target != k) ==>
        k in out.value && out.value[k] == row[k])
  {
    if assigns != [] {
      var a := assigns[0];
      var row' := row[a.target := Shadow(rule, row[a.source]).value];
      var rest := assigns[1..];
      assert forall i :: 0 <= i < |rest| ==> rest[i] == assigns[i + 1];
      assert forall i :: 0 <= i < |rest| ==> row'[rest[i].source] == row[rest[i].source];
      ApplyAssignsEffect(rule, row', rest);
      var out := ApplyAssigns(rule, row', rest);
      assert out == ApplyAssigns(rule, row, assigns);
      forall k | k in row && (forall i :: 0 <= i < |assigns| ==> assigns[i].target != k)
        ensures k in out.value && out.value[k] == row[k]
      {
        assert assigns[0].target != k;
        assert forall i :: 0 <= i < |rest| ==> rest[i].target != k;
      }
      forall i | 0 <= i < |assigns|
        ensures assigns[i].target in out.value && out.value[assigns[i].target] == Shadow(rule, row[assigns[i].source]).value
      {
        if i > 0 {
          assert assigns[i] == rest[i - 1];
          assert row'[rest[i - 1].source] == row[assigns[i].source];
        } else if exists j :: 0 <= j < |rest| && rest[j].target == a.target {
          var j :| 0 <= j < |rest| && rest[j].target == a.target;
          assert assigns[j + 1].target == a.target;
          assert rest[j].source == a.source;
          assert out.value[a.target] == Shadow(rule, row'[rest[j].source]).value;
        } else {
          assert a.target in row' && row'[a.target] == Shadow(rule, row[a.source]).value;
          assert forall m :: 0 <= m < |rest| ==> rest[m].target != a.target;
        }
      }
    }
  }

  /** The triggers left after dropping every trigger called name, whatever
      table it sits on. */
  function DropNamed(triggers: map<TriggerKey, Trigger>, name: string): (r: map<TriggerKey, Trigger>)
    ensures forall k :: k in r <==> k in triggers && k.name != name
    ensures forall k :: k in r ==> r[k] == triggers[k]
  {
    map k | k in triggers && k.name != name :: triggers[k]
  }

  /** The schema objects a Database holds, as one value (everything its
      methods change except the log of statements). */
  datatype Schema = Schema(tables: map<string, map<string, ColumnSpec>>, indexes: map<string, map<string, seq<string>>>,
                           triggers: map<TriggerKey, Trigger>, functions: map<string, Assign>)

  class Database {
    const engine: Engine
    /** The connection's prefixTables(): from "{table}" to the prefixed name. */
    const prefixTables: string -> string
    /** hash('sha256', ·) as lower-case hex. */
    const sha256: string -> Hex

    /** The columns of each table, with their declarations. */
    var tables: map<string, map<string, ColumnSpec>>
    /** The indexes of each table: index name to indexed fields. */
    var indexes: map<string, map<string, seq<string>>>
    var triggers: map<TriggerKey, Trigger>
    /** PostgreSQL trigger functions: name to the assignment they perform. */
    var functions: map<string, Assign>
    /** Every statement issued, in order. */
    var log: seq<Statement>

    constructor (engine: Engine, prefixTables: string -> string, sha256: string -> Hex,
                 tables: map<string, map<string, ColumnSpec>>)
      ensures this.engine == engine && this.prefixTables == prefixTables && this.sha256 == sha256
      ensures this.tables == tables && indexes == map[] && triggers == map[] && functions == map[] && log == []
    {
      this.engine := engine;
      this.prefixTables := prefixTables;
      this.sha256 := sha256;
      this.tables := tables;
      indexes := map[];
      triggers := map[];
      functions := map[];
      log := [];
    }

    function State(): Schema
      reads this
    {
      Schema(tables, indexes, triggers, functions)
    }

    /** The schema API's fieldExists(). */
    predicate FieldExists(table: string, column: string)
      reads this
    {
      table in tables && column in tables[table]
    }

    /** The schema API's addField(): refuses a missing table or a taken name. */
    method AddField(table: string, column: string, spec: ColumnSpec) returns (o: Outcome)
      modifies this
      ensures o == (if table !in old(tables) then Fail(SchemaObjectDoesNotExist(table))
                    else if column in old(tables)[table] then Fail(SchemaObjectExists(table, column))
                    else Pass)
      ensures tables == if o.Pass? then old(tables)[table := old(tables)[table][column := spec]] else old(tables)
      ensures indexes == old(indexes) && triggers == old(triggers) && functions == old(functions) && log == old(log)
    {
      if table !in tables {
        return Fail(SchemaObjectDoesNotExist(table));
      }
      if column in tables[table] {
        return Fail(SchemaObjectExists(table, column));
      }
      tables := tables[table := tables[table][column := spec]];
      o := Pass;
    }

    /** The schema API's addIndex(): refuses a missing table or a taken name. */
    method AddIndex(table: string, name: string, fields: seq<string>) returns (o: Outcome)
      modifies this
      ensures o == (if table !in old(tables) then Fail(SchemaObjectDoesNotExist(table))
                    else if table in old(indexes) && name in old(indexes)[table] then Fail(SchemaObjectExists(table, name))
                    else Pass)
      ensures indexes == if o.Pass? then old(indexes)[table := (if table in old(indexes) then old(indexes)[table] else map[])[name := fields]]
                         else old(indexes)
      ensures tables == old(tables) && triggers == old(triggers) && functions == old(functions) && log == old(log)
    {
      if table !in tables {
        return Fail(SchemaObjectDoesNotExist(table));
      }
      var current := if table in indexes then indexes[table] else map[];
      if name in current {
        return Fail(SchemaObjectExists(table, name));
      }
      indexes := indexes[table := current[name := fields]];
      o := Pass;
    }

    /** "DROP TRIGGER IF EXISTS name" on MySQL and SQLite, where trigger
        names are not scoped by table; query() may refuse it. */
    method DropTrigger(name: string, sql: string, allowDelimiter: bool) returns (o: Outcome)
      modifies this
      ensures o == if Refused(sql, allowDelimiter) then Fail(InvalidArgument(DelimiterMessage)) else Pass
      ensures triggers == if o.Pass? then DropNamed(old(triggers), name) else old(triggers)
      ensures log == if o.Pass? then old(log) + [Sql(sql)] else old(log)
      ensures tables == old(tables) && indexes == old(indexes) && functions == old(functions)
    {
      if Refused(sql, allowDelimiter) {
        return Fail(InvalidArgument(DelimiterMessage));
      }
      triggers := DropNamed(triggers, name);
      log := log + [Sql(sql)];
      o := Pass;
    }

    /** "DROP TRIGGER IF EXISTS name ON table" on PostgreSQL; query() may
        refuse it. */
    method DropTriggerOn(table: string, name: string, sql: string, allowDelimiter: bool) returns (o: Outcome)
      modifies this
      ensures o == if Refused(sql, allowDelimiter) then Fail(InvalidArgument(DelimiterMessage)) else Pass
      ensures triggers == if o.Pass? then old(triggers) - {TriggerKey(table, name)} else old(triggers)
      ensures log == if o.Pass? then old(log) + [Sql(sql)] else old(log)
      ensures tables == old(tables) && indexes == old(indexes) && functions == old(functions)
    {
      if Refused(sql, allowDelimiter) {
        return Fail(InvalidArgument(DelimiterMessage));
      }
      triggers := triggers - {TriggerKey(table, name)};
      log := log + [Sql(sql)];
      o := Pass;
    }

    /** A CREATE TRIGGER statement; the trigger it defines is given beside
        its text (the model does not parse SQL); query() may refuse it. */
    method CreateTrigger(key: TriggerKey, trigger: Trigger, sql: string, allowDelimiter: bool) returns (o: Outcome)
      modifies this
      ensures o == if Refused(sql, allowDelimiter) then Fail(InvalidArgument(DelimiterMessage)) else Pass
      ensures triggers == if o.Pass? then old(triggers)[key := trigger] else old(triggers)
      ensures log == if o.Pass? then old(log) + [Sql(sql)] else old(log)
      ensures tables == old(tables) && indexes == old(indexes) && functions == old(functions)
    {
      if Refused(sql, allowDelimiter) {
        return Fail(InvalidArgument(DelimiterMessage));
      }
      triggers := triggers[key := trigger];
      log := log + [Sql(sql)];
      o := Pass;
    }

    /** A CREATE OR REPLACE FUNCTION statement, with the assignment the
        function performs; query() may refuse it. */
    method CreateFunction(name: string, assign: Assign, sql: string, allowDelimiter: bool) returns (o: Outcome)
      modifies this
      ensures o == if Refused(sql, allowDelimiter) then Fail(InvalidArgument(DelimiterMessage)) else Pass
      ensures functions == if o.Pass? then old(functions)[name := assign] else old(functions)
      ensures log == if o.Pass? then old(log) + [Sql(sql)] else old(log)
      ensures tables == old(tables) && indexes == old(indexes) && triggers == old(triggers)
    {
      if Refused(sql, allowDelimiter) {
        return Fail(InvalidArgument(DelimiterMessage));
      }
      functions := functions[name := assign];
      log := log + [Sql(sql)];
      o := Pass;
    }

    /** update(table)->fields([column => value])->execute(). */
    method Update(table: string, column: string, value: int)
      modifies this
      ensures log == old(log) + [BulkUpdate(table, column, value)]
      ensures tables == old(tables) && indexes == old(indexes) && triggers == old(triggers) && functions == old(functions)
    {
      log := log + [BulkUpdate(table, column, value)];
    }
  }
}
