/** The shared part of the MySQL and SQLite shadow column handlers: add the
    missing "<column>_int" columns of a table and, when any was added,
    replace the table's update and insert triggers by ones that fill every
    shadow column from its string column. The engine of the connection picks
    the dialect (see IntColumnHandlerMySQL and IntColumnHandlerSQLite). */
module IntColumnHandler {
  import opened Wrappers
  import opened Strings
  import opened ShadowValue
  import opened Database
  import MySQL = IntColumnHandlerMySQL
  import SQLite = IntColumnHandlerSQLite

  /** The name of a column's integer shadow. */
  function IntName(column: string): string
  {
    column + "_int"
  }

  /** Distinct columns have distinct shadows. */
  lemma IntNameInjective(a: string, b: string)
    requires IntName(a) == IntName(b)
    ensures a == b
  {
    assert |a| == |b|;
    assert a == IntName(a)[..|a|];
    assert b == IntName(b)[..|b|];
  }

  function Elements(s: seq<string>): set<string>
  {
    set x | x in s
  }

  /** The shadow columns create() adds, in input order: the "_int" name of
      every input column whose shadow is neither in present nor added for
      an earlier input column. */
  function NewIntColumns(present: set<string>, columns: seq<string>): seq<string>
    decreases |columns|
  {
    if columns == [] then []
    else if IntName(columns[0]) in present then NewIntColumns(present, columns[1..])
    else [IntName(columns[0])] + NewIntColumns(present + {IntName(columns[0])}, columns[1..])
  }

  /** Every added column is the shadow of an input column, was absent
      before, and is added once. */
  lemma {:induction false} NewIntColumnsSound(present: set<string>, columns: seq<string>)
    decreases |columns|
    ensures forall x :: x in NewIntColumns(present, columns) ==>
      x !in present && exists j :: 0 <= j < |columns| && x == IntName(columns[j])
    ensures forall a, b :: 0 <= a < b < |NewIntColumns(present, columns)| ==>
      NewIntColumns(present, columns)[a] != NewIntColumns(present, columns)[b]
  {
    if columns != [] {
      var c := IntName(columns[0]);
      var tail := columns[1..];
      var p' := if c in present then present else present + {c};
      NewIntColumnsSound(p', tail);
      var rest := NewIntColumns(p', tail);
      forall x | x in rest
        ensures exists j :: 0 <= j < |columns| && x == IntName(columns[j])
      {
        var j :| 0 <= j < |tail| && x == IntName(tail[j]);
        assert tail[j] == columns[j + 1];
      }
      if c !in present {
        assert NewIntColumns(present, columns) == [c] + rest;
        assert c !in rest;
      }
    }
  }

  /** After create() every input column has its shadow: it was there or it
      was added. */
  lemma {:induction false} NewIntColumnsComplete(present: set<string>, columns: seq<string>)
    decreases |columns|
    ensures forall j :: 0 <= j < |columns| ==> IntName(columns[j]) in present + Elements(NewIntColumns(present, columns))
  {
    if columns != [] {
      var c := IntName(columns[0]);
      var p' := if c in present then present else present + {c};
      NewIntColumnsComplete(p', columns[1..]);
      var rest := NewIntColumns(p', columns[1..]);
      forall j | 0 <= j < |columns|
        ensures IntName(columns[j]) in present + Elements(NewIntColumns(present, columns))
      {
        if j > 0 {
          assert columns[j] == columns[1..][j - 1];
          assert IntName(columns[j]) in p' + Elements(rest);
        }
      }
    }
  }

  /** Nothing is added exactly when every input column already has its
      shadow. */
  lemma {:induction false} NewIntColumnsEmpty(present: set<string>, columns: seq<string>)
    decreases |columns|
    ensures NewIntColumns(present, columns) == [] <==> forall j :: 0 <= j < |columns| ==> IntName(columns[j]) in present
  {
    if columns != [] {
      NewIntColumnsEmpty(present, columns[1..]);
      if IntName(columns[0]) in present {
        forall j | 0 < j < |columns| && IntName(columns[1..][j - 1]) in present
          ensures IntName(columns[j]) in present
        {
        }
        assert forall j :: 0 <= j < |columns[1..]| ==> columns[1..][j] == columns[j + 1];
      }
    }
  }

  /** Idempotence: once the added columns are present, a second create()
      with the same columns adds nothing. */
  lemma CreateIdempotent(present: set<string>, columns: seq<string>)
    ensures NewIntColumns(present + Elements(NewIntColumns(present, columns)), columns) == []
  {
    NewIntColumnsComplete(present, columns);
    NewIntColumnsEmpty(present + Elements(NewIntColumns(present, columns)), columns);
  }

  /** The declarations of the added columns. */
  function Declared(columns: seq<string>): map<string, ColumnSpec>
  {
    map c | c in columns :: IntSpec
  }

  lemma DeclaredNothing(tables: map<string, map<string, ColumnSpec>>, table: string)
    ensures Declared([]) == map[] && Elements([]) == {}
    ensures table in tables ==> tables[table := tables[table] + Declared([])] == tables
  {
    if table in tables {
      assert tables[table] + map[] == tables[table];
    }
  }

  lemma {:induction false} DeclaredStep(was: map<string, ColumnSpec>, added: seq<string>, column: string)
    ensures (was + Declared(added))[column := IntSpec] == was + Declared(added + [column])
    ensures Elements(added + [column]) == Elements(added) + {column}
  {
    assert Declared(added + [column]) == Declared(added)[column := IntSpec];
  }

  /** One step of the loop over the columns, as NewIntColumns sees it. */
  lemma {:induction false} NewIntColumnsStep(seen: set<string>, columns: seq<string>, i: nat)
    requires i < |columns|
    ensures NewIntColumns(seen, columns[i..]) ==
      if IntName(columns[i]) in seen then NewIntColumns(seen, columns[i + 1..])
      else [IntName(columns[i])] + NewIntColumns(seen + {IntName(columns[i])}, columns[i + 1..])
  {
    assert columns[i..][0] == columns[i] && columns[i..][1..] == columns[i + 1..];
  }

  lemma {:induction false} ElementsAppend(s: seq<string>, x: string)
    ensures Elements(s + [x]) == Elements(s) + {x}
  {
  }

  /** A column whose shadow is already there adds nothing. */
  lemma {:induction false} AddedSkip(present: set<string>, added: seq<string>, columns: seq<string>, i: nat)
    requires i < |columns| && IntName(columns[i]) in present + Elements(added)
    requires added + NewIntColumns(present + Elements(added), columns[i..]) == NewIntColumns(present, columns)
    ensures added + NewIntColumns(present + Elements(added), columns[i + 1..]) == NewIntColumns(present, columns)
  {
    NewIntColumnsStep(present + Elements(added), columns, i);
  }

  /** A column whose shadow is missing adds that shadow, once. */
  lemma {:induction false} AddedNew(present: set<string>, added: seq<string>, columns: seq<string>, i: nat)
    requires i < |columns| && IntName(columns[i]) !in present + Elements(added)
    requires added + NewIntColumns(present + Elements(added), columns[i..]) == NewIntColumns(present, columns)
    ensures (added + [IntName(columns[i])]) + NewIntColumns(present + Elements(added + [IntName(columns[i])]), columns[i + 1..])
      == NewIntColumns(present, columns)
  {
    var c := IntName(columns[i]);
    var seen := present + Elements(added);
    NewIntColumnsStep(seen, columns, i);
    ElementsAppend(added, c);
    assert present + Elements(added + [c]) == seen + {c};
    var rest := NewIntColumns(seen + {c}, columns[i + 1..]);
    assert NewIntColumns(seen, columns[i..]) == [c] + rest;
    assert (added + [c]) + rest == added + ([c] + rest);
  }

  /** The loop invariant of create() survives one more column. */
  lemma AddedStep(present: set<string>, added: seq<string>, columns: seq<string>, i: nat)
    requires i < |columns|
    requires added + NewIntColumns(present + Elements(added), columns[i..]) == NewIntColumns(present, columns)
    ensures IntName(columns[i]) in present + Elements(added) ==>
      added + NewIntColumns(present + Elements(added), columns[i + 1..]) == NewIntColumns(present, columns)
    ensures IntName(columns[i]) !in present + Elements(added) ==>
      (added + [IntName(columns[i])]) + NewIntColumns(present + Elements(added + [IntName(columns[i])]), columns[i + 1..])
        == NewIntColumns(present, columns)
  {
    if IntName(columns[i]) in present + Elements(added) {
      AddedSkip(present, added, columns, i);
    } else {
      AddedNew(present, added, columns, i);
    }
  }

  /** The assignment of one shadow column, in the engine's dialect. */
  function CreateBody(engine: Engine, columnInt: string, column: string): string
  {
    if engine.SQLite? then SQLite.CreateBody(columnInt, column) else MySQL.CreateBody(columnInt, column)
  }

  /** One assignment per input column, whether or not its shadow is new. */
  function Bodies(engine: Engine, columns: seq<string>): seq<string>
  {
    seq(|columns|, k requires 0 <= k < |columns| => CreateBody(engine, IntName(columns[k]), columns[k]))
  }

  lemma BodiesStep(engine: Engine, columns: seq<string>, i: nat)
    requires i < |columns|
    ensures Bodies(engine, columns[..i + 1]) == Bodies(engine, columns[..i]) + [CreateBody(engine, IntName(columns[i]), columns[i])]
  {
  }

  /** The assignments the trigger body performs, one per input column. */
  function BodyAssigns(columns: seq<string>): seq<Assign>
  {
    seq(|columns|, k requires 0 <= k < |columns| => Assign(IntName(columns[k]), columns[k]))
  }

  /** The trigger body, the assignments imploded with ", ". */
  function BodyText(engine: Engine, columns: seq<string>): string
  {
    Join(Bodies(engine, columns), ", ")
  }

  /** The body is empty only for no columns, and it holds a ';' exactly when
      an input column name does. */
  lemma BodyTextDelimiter(engine: Engine, columns: seq<string>)
    ensures BodyText(engine, columns) == "" <==> columns == []
    ensures ';' in BodyText(engine, columns) <==> exists k :: 0 <= k < |columns| && ';' in columns[k]
  {
    var parts := Bodies(engine, columns);
    JoinContains(parts, ", ", ';');
    if columns != [] {
      assert |parts[0]| > 0;
      assert BodyText(engine, columns)[..|parts[0]|] == parts[0];
    }
    forall k | 0 <= k < |columns|
      ensures ';' in parts[k] <==> ';' in columns[k]
    {
      assert ';' !in "_int";
    }
  }

  /** The trigger name for op: the prefixed table, "_der_" and op; a name
      over 64 characters keeps its first 56 and gets the first 8 characters
      of its sha256 digest, so no name exceeds 64 characters and a short one
      is kept as it is. */
  function TriggerName(prefixedName: string, op: Event, sha256: string -> Hex): (r: string)
    ensures |r| <= 64
    ensures var natural := prefixedName + "_der_" + EventName(op);
      (|natural| <= 64 ==> r == natural) &&
      (|natural| > 64 ==> |r| == 64 && r[..56] == natural[..56] && r[56..] == sha256(natural)[..8])
  {
    var trigger := prefixedName + "_der_" + EventName(op);
    if |trigger| > 64 then Prefix(trigger, 56) + Prefix(sha256(trigger), 8) else trigger
  }

  /** A trigger name holds a ';' only if the prefixed table name does. */
  lemma TriggerNameDelimiter(prefixedName: string, op: Event, sha256: string -> Hex)
    ensures ';' in TriggerName(prefixedName, op, sha256) ==> ';' in prefixedName
  {
    var natural := prefixedName + "_der_" + EventName(op);
    var r := TriggerName(prefixedName, op, sha256);
    assert ';' !in "_der_" + EventName(op);
    if |natural| > 64 {
      assert forall m :: 0 <= m < 8 ==> r[56 + m] == sha256(natural)[m];
      assert forall m :: 0 <= m < 8 ==> IsHexDigit(sha256(natural)[m]);
      assert forall m :: 56 <= m < 64 ==> r[m] != ';';
    }
    if ';' in r {
      var k :| 0 <= k < |r| && r[k] == ';';
      assert natural[k] == ';';
      assert k < |prefixedName|;
      assert prefixedName[k] == ';';
    }
  }

  /** A trigger name ends in a letter of the operation or a hex digit of
      the digest, never in a character query() strips. */
  lemma TriggerNameEnd(prefixedName: string, op: Event, sha256: string -> Hex)
    ensures var r := TriggerName(prefixedName, op, sha256); r != [] && !Trailing(r[|r| - 1])
  {
    var natural := prefixedName + "_der_" + EventName(op);
    var r := TriggerName(prefixedName, op, sha256);
    if |natural| > 64 {
      assert r[63] == sha256(natural)[7];
      assert IsHexDigit(sha256(natural)[7]);
    } else {
      assert r[|r| - 1] == EventName(op)[|EventName(op)| - 1];
    }
  }

  /** The MySQL body ends with the closing parenthesis of its last
      assignment. */
  lemma MySQLBodyEnd(engine: Engine, columns: seq<string>)
    requires !engine.SQLite? && columns != []
    ensures var body := BodyText(engine, columns); body != [] && body[|body| - 1] == ')'
  {
    var parts := Bodies(engine, columns);
    JoinEndsWithLast(parts, ", ");
    var last := parts[|parts| - 1];
    assert last == MySQL.CreateBody(IntName(columns[|columns| - 1]), columns[|columns| - 1]);
    var body := BodyText(engine, columns);
    assert body[|body| - 1] == body[|body| - |last|..][|last| - 1];
  }

  function DropStatement(trigger: string): string
  {
    "DROP TRIGGER IF EXISTS " + trigger
  }

  /** The triggers and the statement log, the part of the connection the
      trigger replacement changes. */
  datatype TriggerLog = TriggerLog(triggers: map<TriggerKey, Trigger>, log: seq<Statement>)

  /** One round of the loop over 'update' and 'insert': drop the trigger of
      that name, then create it with the body (when the body is not empty).
      query() refuses the DROP, and the MySQL CREATE TRIGGER, when they hold
      a ';'; the SQLite CREATE TRIGGER has a guard of its own and is then
      sent with allow_delimiter_in_query. */
  function Replaced(engine: Engine, sha256: string -> Hex, s: TriggerLog, prefixedName: string, op: Event,
                    body: string, assigns: seq<Assign>): (Outcome, TriggerLog)
  {
    var trigger := TriggerName(prefixedName, op, sha256);
    var key := TriggerKey(prefixedName, trigger);
    if Refused(DropStatement(trigger), false) then (Fail(InvalidArgument(DelimiterMessage)), s)
    else
      var dropped := TriggerLog(DropNamed(s.triggers, trigger), s.log + [Sql(DropStatement(trigger))]);
      if body == "" then (Pass, dropped)
      else if engine.SQLite? then
        if ';' in SQLite.TriggerQuery(trigger, op, prefixedName, body) then
          (Fail(InvalidArgument(DelimiterMessage)), dropped)
        else
          (Pass, TriggerLog(dropped.triggers[key := SQLite.TriggerDefinition(op, prefixedName, assigns)],
                            dropped.log + [Sql(SQLite.ExecutedQuery(trigger, op, prefixedName, body))]))
      else if Refused(MySQL.TriggerStatement(trigger, op, prefixedName, body), false) then
        (Fail(InvalidArgument(DelimiterMessage)), dropped)
      else
        (Pass, TriggerLog(dropped.triggers[key := MySQL.TriggerDefinition(op, assigns)],
                          dropped.log + [Sql(MySQL.TriggerStatement(trigger, op, prefixedName, body))]))
  }

  /** Both rounds, the second only when the first did not throw. */
  function TriggerPhase(engine: Engine, sha256: string -> Hex, s: TriggerLog, prefixedName: string,
                        body: string, assigns: seq<Assign>): (Outcome, TriggerLog)
  {
    var u := Replaced(engine, sha256, s, prefixedName, Update, body, assigns);
    if u.0.Fail? then u else Replaced(engine, sha256, u.1, prefixedName, Insert, body, assigns)
  }

  /** The DROP of a trigger is refused exactly when its name holds a ';'. */
  lemma DropRefused(prefixedName: string, op: Event, sha256: string -> Hex)
    ensures var trigger := TriggerName(prefixedName, op, sha256);
      Refused(DropStatement(trigger), false) <==> ';' in trigger
  {
    var trigger := TriggerName(prefixedName, op, sha256);
    TriggerNameEnd(prefixedName, op, sha256);
    RTrimEndsWith("DROP TRIGGER IF EXISTS ", trigger);
    InConcat(';', "DROP TRIGGER IF EXISTS ", trigger);
  }

  /** The CREATE TRIGGER of one round fails exactly when the prefixed table
      name or an input column holds a ';': on SQLite through the handler's
      own guard, on MySQL through query()'s. */
  lemma CreateRefused(engine: Engine, prefixedName: string, op: Event, sha256: string -> Hex, columns: seq<string>)
    requires columns != []
    ensures var trigger := TriggerName(prefixedName, op, sha256);
      var body := BodyText(engine, columns);
      (if engine.SQLite? then ';' in SQLite.TriggerQuery(trigger, op, prefixedName, body)
       else Refused(MySQL.TriggerStatement(trigger, op, prefixedName, body), false)) <==>
        ';' in prefixedName || exists k :: 0 <= k < |columns| && ';' in columns[k]
  {
    var trigger := TriggerName(prefixedName, op, sha256);
    var body := BodyText(engine, columns);
    BodyTextDelimiter(engine, columns);
    TriggerNameDelimiter(prefixedName, op, sha256);
    if engine.SQLite? {
      SQLite.TriggerQueryDelimiter(trigger, op, prefixedName, body);
    } else {
      MySQLBodyEnd(engine, columns);
      var statement := MySQL.TriggerStatement(trigger, op, prefixedName, body);
      var head := statement[..|statement| - |body|];
      assert statement == head + body;
      RTrimEndsWith(head, body);
    }
  }

  /** The trigger phase throws exactly when the prefixed table name or an
      input column holds a ';', on either engine: the SQLite handler's guard
      and query()'s single-statement check both see it. */
  lemma TriggerPhaseFails(engine: Engine, sha256: string -> Hex, s: TriggerLog, prefixedName: string, columns: seq<string>)
    requires columns != []
    ensures var phase := TriggerPhase(engine, sha256, s, prefixedName, BodyText(engine, columns), BodyAssigns(columns));
      phase.0.Fail? <==> ';' in prefixedName || exists k :: 0 <= k < |columns| && ';' in columns[k]
    ensures var phase := TriggerPhase(engine, sha256, s, prefixedName, BodyText(engine, columns), BodyAssigns(columns));
      phase.0.Fail? ==> phase.0 == Fail(InvalidArgument(DelimiterMessage))
  {
    BodyTextDelimiter(engine, columns);
    DropRefused(prefixedName, Update, sha256);
    DropRefused(prefixedName, Insert, sha256);
    TriggerNameDelimiter(prefixedName, Update, sha256);
    TriggerNameDelimiter(prefixedName, Insert, sha256);
    CreateRefused(engine, prefixedName, Update, sha256, columns);
    CreateRefused(engine, prefixedName, Insert, sha256, columns);
  }

  /** One round that did not throw leaves its own trigger on the table,
      firing on its event and assigning the given shadows. */
  lemma ReplacedInstalls(engine: Engine, sha256: string -> Hex, s: TriggerLog, prefixedName: string, op: Event,
                         body: string, assigns: seq<Assign>)
    requires body != ""
    requires Replaced(engine, sha256, s, prefixedName, op, body, assigns).0.Pass?
    ensures var triggers := Replaced(engine, sha256, s, prefixedName, op, body, assigns).1.triggers;
      var key := TriggerKey(prefixedName, TriggerName(prefixedName, op, sha256));
      key in triggers && triggers[key].events == {op} &&
      (triggers[key].action.SetNew? || triggers[key].action.UpdateRow?) && triggers[key].action.assigns == assigns
  {
  }

  /** A round keeps every trigger whose name is not the one it replaces. */
  lemma ReplacedKeeps(engine: Engine, sha256: string -> Hex, s: TriggerLog, prefixedName: string, op: Event,
                      body: string, assigns: seq<Assign>, key: TriggerKey)
    requires key in s.triggers && key.name != TriggerName(prefixedName, op, sha256)
    ensures var triggers := Replaced(engine, sha256, s, prefixedName, op, body, assigns).1.triggers;
      key in triggers && triggers[key] == s.triggers[key]
  {
    var trigger := TriggerName(prefixedName, op, sha256);
    var dropped := DropNamed(s.triggers, trigger);
    assert key in dropped && dropped[key] == s.triggers[key];
    var added := TriggerKey(prefixedName, trigger);
    assert key != added;
    if !Refused(DropStatement(trigger), false) && body != "" {
      if engine.SQLite? {
        if ';' !in SQLite.TriggerQuery(trigger, op, prefixedName, body) {
          assert key in dropped[added := SQLite.TriggerDefinition(op, prefixedName, assigns)];
        }
      } else if !Refused(MySQL.TriggerStatement(trigger, op, prefixedName, body), false) {
        assert key in dropped[added := MySQL.TriggerDefinition(op, assigns)];
      }
    }
  }

  /** After a trigger phase that did not throw, the table carries an update
      and an insert trigger (when their names differ), each firing on its
      own event and assigning every input column's shadow from the column. */
  lemma TriggerPhaseInstalls(engine: Engine, sha256: string -> Hex, s: TriggerLog, prefixedName: string,
                             body: string, assigns: seq<Assign>, op: Event)
    requires body != ""
    requires TriggerName(prefixedName, Update, sha256) != TriggerName(prefixedName, Insert, sha256)
    requires TriggerPhase(engine, sha256, s, prefixedName, body, assigns).0.Pass?
    ensures var triggers := TriggerPhase(engine, sha256, s, prefixedName, body, assigns).1.triggers;
      var key := TriggerKey(prefixedName, TriggerName(prefixedName, op, sha256));
      key in triggers && triggers[key].events == {op} &&
      (triggers[key].action.SetNew? || triggers[key].action.UpdateRow?) && triggers[key].action.assigns == assigns
  {
    var u := Replaced(engine, sha256, s, prefixedName, Update, body, assigns);
    ReplacedInstalls(engine, sha256, s, prefixedName, Update, body, assigns);
    ReplacedInstalls(engine, sha256, u.1, prefixedName, Insert, body, assigns);
    ReplacedKeeps(engine, sha256, u.1, prefixedName, Insert, body, assigns,
                  TriggerKey(prefixedName, TriggerName(prefixedName, Update, sha256)));
  }

  /** Firing a trigger whose action assigns the shadows of the input
      columns (as both installed triggers do) on a row fails exactly when
      some column's shadow does not fit the engine's shadow column, and
      otherwise sets every shadow column to the engine's shadow value of its
      string column and leaves every other column alone. */
  lemma TriggerMaintainsShadows(engine: Engine, columns: seq<string>, action: Action,
                                functions: map<string, Assign>, row: Row)
    requires (action.SetNew? || action.UpdateRow?) && action.assigns == BodyAssigns(columns)
    requires forall k :: 0 <= k < |columns| ==> columns[k] in row
    requires forall k, j :: 0 <= k < |columns| && 0 <= j < |columns| ==> columns[k] != IntName(columns[j])
    ensures var out := Fire(functions, RuleOf(engine), action, row);
      (out.Some? <==> forall k :: 0 <= k < |columns| ==> Shadow(RuleOf(engine), row[columns[k]]).Some?) &&
      (out.Some? ==>
        (forall k :: 0 <= k < |columns| ==>
          IntName(columns[k]) in out.value && out.value[IntName(columns[k])] == Shadow(RuleOf(engine), row[columns[k]]).value) &&
        (forall c :: c in row && (forall k :: 0 <= k < |columns| ==> c != IntName(columns[k])) ==>
          c in out.value && out.value[c] == row[c]))
  {
    var assigns := BodyAssigns(columns);
    var rule := RuleOf(engine);
    var out := Fire(functions, rule, action, row);
    assert out == ApplyAssigns(rule, row, assigns);
    forall i, j | 0 <= i < |assigns| && 0 <= j < |assigns| && assigns[i].target == assigns[j].target
      ensures assigns[i].source == assigns[j].source
    {
      IntNameInjective(columns[i], columns[j]);
    }
    ApplyAssignsDefined(rule, row, assigns);
    assert forall k :: 0 <= k < |columns| ==> assigns[k].target == IntName(columns[k]) && assigns[k].source == columns[k];
    if out.Some? {
      ApplyAssignsEffect(rule, row, assigns);
      forall c | c in row && (forall k :: 0 <= k < |columns| ==> c != IntName(columns[k]))
        ensures c in out.value && out.value[c] == row[c]
      {
        assert forall i :: 0 <= i < |assigns| ==> assigns[i].target != c;
      }
    }
  }

  class IntColumnHandler {
    const connection: Database

    /** The handler serves MySQL and SQLite connections; PostgreSQL has its
        own (IntColumnHandlerPostgreSQL). */
    constructor (connection: Database)
      requires connection.engine != PostgreSQL
      ensures this.connection == connection
    {
      this.connection := connection;
    }

    /** create(): adds every missing shadow column (unsigned, nullable int)
        and returns their names in input order; when at least one was added,
        drops and recreates the update and insert triggers with a body that
        assigns every input column's shadow. A missing table makes the first
        addField() throw before anything changes. */
    method Create(table: string, columns: seq<string>) returns (r: Result<seq<string>>)
      modifies connection
      ensures var tables := old(connection.tables);
        var present := if table in tables then tables[table].Keys else {};
        var added := NewIntColumns(present, columns);
        var phase := TriggerPhase(connection.engine, connection.sha256, TriggerLog(old(connection.triggers), old(connection.log)),
                                  connection.prefixTables("{" + table + "}"), BodyText(connection.engine, columns), BodyAssigns(columns));
        if table !in tables && columns != [] then
          r == Err(SchemaObjectDoesNotExist(table)) && connection.tables == tables &&
          connection.triggers == old(connection.triggers) && connection.log == old(connection.log)
        else if added == [] then
          r == Ok([]) && connection.tables == tables &&
          connection.triggers == old(connection.triggers) && connection.log == old(connection.log)
        else
          table in tables && connection.tables == tables[table := tables[table] + Declared(added)] &&
          r == (if phase.0.Pass? then Ok(added) else Err(phase.0.error)) &&
          connection.triggers == phase.1.triggers && connection.log == phase.1.log
      ensures connection.indexes == old(connection.indexes) && connection.functions == old(connection.functions)
    {
      var o, added, body := AddIntColumns(table, columns);
      if o.Fail? {
        return Err(o.error);
      }
      if added == [] {
        return Ok([]);
      }
      o := ReplaceTriggers(connection.prefixTables("{" + table + "}"), Join(body, ", "), BodyAssigns(columns));
      r := if o.Pass? then Ok(added) else Err(o.error);
    }

    /** The loop over the columns: add each missing shadow column and collect
        the assignment of every column. */
    method AddIntColumns(table: string, columns: seq<string>) returns (o: Outcome, added: seq<string>, body: seq<string>)
      modifies connection
      ensures var tables := old(connection.tables);
        var present := if table in tables then tables[table].Keys else {};
        if table !in tables && columns != [] then
          o == Fail(SchemaObjectDoesNotExist(table)) && connection.tables == tables
        else
          o == Pass && added == NewIntColumns(present, columns) && body == Bodies(connection.engine, columns) &&
          connection.tables == if added == [] then tables else tables[table := tables[table] + Declared(added)]
      ensures connection.triggers == old(connection.triggers) && connection.log == old(connection.log)
      ensures connection.indexes == old(connection.indexes) && connection.functions == old(connection.functions)
    {
      ghost var present := if table in connection.tables then connection.tables[table].Keys else {};
      body := [];
      added := [];
      var i := 0;
      DeclaredNothing(connection.tables, table);
      assert present + Elements([]) == present && columns[0..] == columns;
      while i < |columns|
        invariant 0 <= i <= |columns|
        invariant table !in old(connection.tables) ==> i == 0 && added == [] && connection.tables == old(connection.tables)
        invariant table in old(connection.tables) ==>
          connection.tables == old(connection.tables)[table := old(connection.tables)[table] + Declared(added)]
        invariant added + NewIntColumns(present + Elements(added), columns[i..]) == NewIntColumns(present, columns)
        invariant body == Bodies(connection.engine, columns[..i])
        invariant connection.triggers == old(connection.triggers) && connection.log == old(connection.log)
        invariant connection.indexes == old(connection.indexes) && connection.functions == old(connection.functions)
      {
        var column := columns[i];
        var columnInt := IntName(column);
        AddedStep(present, added, columns, i);
        assert connection.FieldExists(table, columnInt) <==> columnInt in present + Elements(added);
        if table in old(connection.tables) {
          DeclaredStep(old(connection.tables)[table], added, columnInt);
        }
        var isNew;
        o, isNew := AddIntColumn(table, columnInt);
        if isNew {
          added := added + [columnInt];
          if o.Fail? {
            return;
          }
        }
        BodiesStep(connection.engine, columns, i);
        body := body + [CreateBody(connection.engine, columnInt, column)];
        i := i + 1;
      }
      assert columns[..i] == columns;
      assert columns[i..] == [];
      assert NewIntColumns(present + Elements(added), columns[i..]) == [];
      assert added == added + [];
      if added == [] {
        DeclaredNothing(old(connection.tables), table);
      }
      o := Pass;
    }

    /** One round of the loop over the columns: the shadow column is added
        when fieldExists() does not see it. */
    method AddIntColumn(table: string, columnInt: string) returns (o: Outcome, isNew: bool)
      modifies connection
      ensures isNew == !old(connection.FieldExists(table, columnInt))
      ensures o == if isNew && table !in old(connection.tables) then Fail(SchemaObjectDoesNotExist(table)) else Pass
      ensures connection.tables ==
        if isNew && o.Pass? then old(connection.tables)[table := old(connection.tables)[table][columnInt := IntSpec]]
        else old(connection.tables)
      ensures connection.triggers == old(connection.triggers) && connection.log == old(connection.log)
      ensures connection.indexes == old(connection.indexes) && connection.functions == old(connection.functions)
    {
      isNew := !connection.FieldExists(table, columnInt);
      o := Pass;
      if isNew {
        o := connection.AddField(table, columnInt, IntSpec);
      }
    }

    /** The loop over 'update' and 'insert', left at the first exception. */
    method ReplaceTriggers(prefixedName: string, body: string, assigns: seq<Assign>) returns (o: Outcome)
      modifies connection
      ensures var after := TriggerPhase(connection.engine, connection.sha256, TriggerLog(old(connection.triggers), old(connection.log)),
                                        prefixedName, body, assigns);
        o == after.0 && connection.triggers == after.1.triggers && connection.log == after.1.log
      ensures connection.tables == old(connection.tables) && connection.indexes == old(connection.indexes)
      ensures connection.functions == old(connection.functions)
    {
      o := ReplaceTrigger(prefixedName, Update, body, assigns);
      if o.Pass? {
        o := ReplaceTrigger(prefixedName, Insert, body, assigns);
      }
    }

    /** One round of the loop over 'update' and 'insert'. */
    method ReplaceTrigger(prefixedName: string, op: Event, body: string, assigns: seq<Assign>) returns (o: Outcome)
      modifies connection
      ensures var after := Replaced(connection.engine, connection.sha256, TriggerLog(old(connection.triggers), old(connection.log)),
                                    prefixedName, op, body, assigns);
        o == after.0 && connection.triggers == after.1.triggers && connection.log == after.1.log
      ensures connection.tables == old(connection.tables) && connection.indexes == old(connection.indexes)
      ensures connection.functions == old(connection.functions)
    {
      var trigger := TriggerName(prefixedName, op, connection.sha256);
      o := connection.DropTrigger(trigger, DropStatement(trigger), false);
      if o.Pass? && body != "" {
        if connection.engine.SQLite? {
          o := SQLite.CreateTrigger(connection, trigger, op, prefixedName, body, assigns);
        } else {
          o := MySQL.CreateTrigger(connection, trigger, op, prefixedName, body, assigns);
        }
      }
    }

    /** delete() is a stub: it changes nothing. */
    method Delete(table: string, column: string)
      ensures unchanged(connection)
    {
    }
  }
}
