/** The PostgreSQL shadow column handler: for every missing "<column>_int"
    column, a plpgsql function that computes the shadow value, a BEFORE
    INSERT OR UPDATE trigger that runs it, the column itself and an index on
    it. */
module IntColumnHandlerPostgreSQL {
  import opened Wrappers
  import opened Strings
  import opened ShadowValue
  import opened Database
  import H = IntColumnHandler

  /** getPrefixedTable(): the connection's prefixed name of the table. */
  function GetPrefixedTable(prefixTables: string -> string, table: string): string
  {
    prefixTables("{" + table + "}")
  }

  /** getFunctionName(): the prefixed table and the shadow column joined
      by '_'. */
  function GetFunctionName(prefixedTable: string, columnInt: string): (r: string)
    ensures r == prefixedTable + "_" + columnInt
  {
    assert [prefixedTable, columnInt][1..] == [columnInt];
    assert Join([columnInt], "_") == columnInt;
    Join([prefixedTable, columnInt], "_")
  }

  /** On one table, distinct shadow columns get distinct functions, and a
      function name holds a ';' exactly when the table or column name does. */
  lemma FunctionNameInjective(prefixedTable: string, a: string, b: string)
    ensures GetFunctionName(prefixedTable, a) == GetFunctionName(prefixedTable, b) ==> a == b
    ensures ';' in GetFunctionName(prefixedTable, a) <==> ';' in prefixedTable || ';' in a
  {
    var n := |prefixedTable| + 1;
    assert a == (prefixedTable + "_" + a)[n..];
    assert b == (prefixedTable + "_" + b)[n..];
  }

  /** The query createTriggerFunction() assembles before appending its
      tail: the function sets the shadow column to the column's value when
      that matches '^[0-9]+$' and to NULL otherwise, cast to integer. */
  function FunctionQuery(functionName: string, column: string, columnInt: string): string
  {
    "CREATE OR REPLACE FUNCTION " + functionName + "() RETURNS trigger AS $$" + "\n      BEGIN\n        NEW." + columnInt +
    " = (CASE WHEN NEW." + column + " ~ '^[0-9]+$' THEN NEW." + column + " ELSE NULL END)::integer"
  }

  /** The fixed parts of the function query hold no ';'. */
  lemma QueryHeadLiterals()
    ensures ';' !in "CREATE OR REPLACE FUNCTION " && ';' !in "() RETURNS trigger AS $$" && ';' !in "\n      BEGIN\n        NEW."
  {
  }

  lemma QueryTailLiterals()
    ensures ';' !in " = (CASE WHEN NEW." && ';' !in " ~ '^[0-9]+$' THEN NEW." && ';' !in " ELSE NULL END)::integer"
  {
  }

  /** The ';' guard of createTriggerFunction() fires exactly when one of the
      spliced-in names holds a ';'. */
  lemma FunctionQueryDelimiter(functionName: string, column: string, columnInt: string)
    ensures ';' in FunctionQuery(functionName, column, columnInt) <==> ';' in functionName || ';' in column || ';' in columnInt
  {
    var l1, l2, l3, l4, l5, l6 := "CREATE OR REPLACE FUNCTION ", "() RETURNS trigger AS $$", "\n      BEGIN\n        NEW.",
      " = (CASE WHEN NEW.", " ~ '^[0-9]+$' THEN NEW.", " ELSE NULL END)::integer";
    QueryHeadLiterals();
    QueryTailLiterals();
    var q := l1 + functionName;
    InConcat(';', l1, functionName);
    InConcat(';', q, l2); q := q + l2;
    InConcat(';', q, l3); q := q + l3;
    InConcat(';', q, columnInt); q := q + columnInt;
    InConcat(';', q, l4); q := q + l4;
    InConcat(';', q, column); q := q + column;
    InConcat(';', q, l5); q := q + l5;
    InConcat(';', q, column); q := q + column;
    InConcat(';', q, l6); q := q + l6;
    assert q == FunctionQuery(functionName, column, columnInt);
  }

  /** The guard of createTriggerFunction(), for the function of a column's
      shadow, fires exactly when the prefixed table name or the column name
      holds a ';'. */
  lemma GuardMeaning(prefixedTable: string, column: string)
    ensures var columnInt := H.IntName(column);
      ';' in FunctionQuery(GetFunctionName(prefixedTable, columnInt), column, columnInt) <==> ';' in prefixedTable || ';' in column
  {
    var columnInt := H.IntName(column);
    FunctionQueryDelimiter(GetFunctionName(prefixedTable, columnInt), column, columnInt);
    FunctionNameInjective(prefixedTable, columnInt, columnInt);
    assert ';' !in "_int";
    InConcat(';', column, "_int");
  }

  /** The statement sent once the guard has passed. */
  function FunctionStatement(functionName: string, column: string, columnInt: string): string
  {
    FunctionQuery(functionName, column, columnInt) + "; RETURN NEW; END; $$ LANGUAGE plpgsql IMMUTABLE RETURNS NULL ON NULL INPUT"
  }

  function DropStatement(columnInt: string, prefixedTable: string): string
  {
    "DROP TRIGGER IF EXISTS " + columnInt + " ON " + prefixedTable
  }

  /** The CREATE TRIGGER statement up to the call of the function. */
  function TriggerCall(columnInt: string, prefixedTable: string, functionName: string): string
  {
    "\n      CREATE TRIGGER " + columnInt + "\n        BEFORE INSERT OR UPDATE\n        ON " + prefixedTable +
    "\n        FOR EACH ROW\n        EXECUTE PROCEDURE " + functionName + "()"
  }

  /** The statement createTrigger() sends: it ends with a ';' that query()
      strips before its single-statement check. */
  function TriggerStatement(columnInt: string, prefixedTable: string, functionName: string): string
  {
    TriggerCall(columnInt, prefixedTable, functionName) + ";\n    "
  }

  /** The fixed parts of the trigger statements hold no ';'. */
  lemma TriggerHeadLiterals()
    ensures ';' !in "\n      CREATE TRIGGER " && ';' !in "()"
    ensures ';' !in "DROP TRIGGER IF EXISTS " && ';' !in " ON "
  {
  }

  lemma TriggerEventLiteral()
    ensures ';' !in "\n        BEFORE INSERT OR UPDATE\n        ON "
  {
    var a, b := "\n        BEFORE INSERT", " OR UPDATE\n        ON ";
    assert ';' !in a && ';' !in b;
    InConcat(';', a, b);
    assert a + b == "\n        BEFORE INSERT OR UPDATE\n        ON ";
  }

  lemma TriggerProcedureLiteral()
    ensures ';' !in "\n        FOR EACH ROW\n        EXECUTE PROCEDURE "
  {
    var c, d := "\n        FOR EACH ROW", "\n        EXECUTE PROCEDURE ";
    assert ';' !in c && ';' !in d;
    InConcat(';', c, d);
    assert c + d == "\n        FOR EACH ROW\n        EXECUTE PROCEDURE ";
  }

  /** Once the names hold no ';', query() accepts both statements of
      createTrigger(), although they are sent without
      allow_delimiter_in_query. */
  lemma TriggerStatementsAccepted(columnInt: string, prefixedTable: string, functionName: string)
    requires ';' !in columnInt && ';' !in prefixedTable && ';' !in functionName
    ensures !Refused(DropStatement(columnInt, prefixedTable), false)
    ensures !Refused(TriggerStatement(columnInt, prefixedTable, functionName), false)
  {
    TriggerHeadLiterals();
    TriggerEventLiteral();
    TriggerProcedureLiteral();
    var l1, l2, l3 := "\n      CREATE TRIGGER ", "\n        BEFORE INSERT OR UPDATE\n        ON ",
      "\n        FOR EACH ROW\n        EXECUTE PROCEDURE ";
    var q := l1 + columnInt;
    InConcat(';', l1, columnInt);
    InConcat(';', q, l2); q := q + l2;
    InConcat(';', q, prefixedTable); q := q + prefixedTable;
    InConcat(';', q, l3); q := q + l3;
    InConcat(';', q, functionName); q := q + functionName;
    InConcat(';', q, "()");
    assert q + "()" == TriggerCall(columnInt, prefixedTable, functionName);
    var tail := ";\n    ";
    assert forall k :: 0 <= k < |tail| ==> Trailing(tail[k]);
    RTrimTrailing(q + "()", tail);
    RTrimEndsWith(q, "()");
    var drop := "DROP TRIGGER IF EXISTS " + columnInt;
    InConcat(';', "DROP TRIGGER IF EXISTS ", columnInt);
    InConcat(';', drop, " ON ");
    InConcat(';', drop + " ON ", prefixedTable);
    NoDelimiterAccepted(DropStatement(columnInt, prefixedTable), false);
  }

  /** What that statement defines: a row-level trigger that runs the
      function before every insert and update. */
  function TriggerDefinition(functionName: string): (t: Trigger)
    ensures t.timing == Before && t.events == {Insert, Update}
    ensures t.action == ExecuteProcedure(functionName)
  {
    Trigger(Before, {Insert, Update}, ExecuteProcedure(functionName))
  }

  /** The guard of create(): every input column exists in the table. */
  predicate AllColumnsExist(tables: map<string, map<string, ColumnSpec>>, table: string, columns: seq<string>)
  {
    forall k :: 0 <= k < |columns| ==> table in tables && columns[k] in tables[table]
  }

  /** What createTriggerFunction() creates once its guard has passed: the
      function assigning the shadow column from the column. */
  function FunctionAdded(prefixedTable: string, s: Schema, column: string, columnInt: string): (r: Schema)
    ensures var functionName := GetFunctionName(prefixedTable, columnInt);
      functionName in r.functions && r.functions[functionName] == Assign(columnInt, column) &&
      forall f :: f in s.functions && f != functionName ==> f in r.functions && r.functions[f] == s.functions[f]
    ensures r.tables == s.tables && r.indexes == s.indexes && r.triggers == s.triggers
  {
    s.(functions := s.functions[GetFunctionName(prefixedTable, columnInt) := Assign(columnInt, column)])
  }

  /** What createTrigger() leaves: the trigger named after the shadow
      column is dropped from the table and created anew, running the
      function. */
  function TriggerAdded(prefixedTable: string, s: Schema, columnInt: string): (r: Schema)
    ensures var key := TriggerKey(prefixedTable, columnInt);
      key in r.triggers && r.triggers[key] == TriggerDefinition(GetFunctionName(prefixedTable, columnInt)) &&
      forall k :: k in s.triggers && k != key ==> k in r.triggers && r.triggers[k] == s.triggers[k]
    ensures r.tables == s.tables && r.indexes == s.indexes && r.functions == s.functions
  {
    var key := TriggerKey(prefixedTable, columnInt);
    s.(triggers := (s.triggers - {key})[key := TriggerDefinition(GetFunctionName(prefixedTable, columnInt))])
  }

  /** addField() of the shadow column, then addIndex() of the index named
      after it over the shadow column followed by the index columns; the
      first of them to throw ends the round. */
  function ColumnAdded(s: Schema, table: string, columnInt: string, indexColumns: seq<string>): (r: (Outcome, Schema))
    ensures r.1.triggers == s.triggers && r.1.functions == s.functions
    ensures forall t, n :: t in s.indexes && n in s.indexes[t] && n != columnInt ==>
      t in r.1.indexes && n in r.1.indexes[t] && r.1.indexes[t][n] == s.indexes[t][n]
    ensures r.0.Pass? <==> table in s.tables && columnInt !in s.tables[table] &&
                           (table !in s.indexes || columnInt !in s.indexes[table])
    ensures r.0.Pass? ==>
      r.1.tables == s.tables[table := s.tables[table][columnInt := IntSpec]] &&
      table in r.1.indexes && columnInt in r.1.indexes[table] && r.1.indexes[table][columnInt] == [columnInt] + indexColumns
  {
    if table !in s.tables then (Fail(SchemaObjectDoesNotExist(table)), s)
    else if columnInt in s.tables[table] then (Fail(SchemaObjectExists(table, columnInt)), s)
    else
      var s1 := s.(tables := s.tables[table := s.tables[table][columnInt := IntSpec]]);
      var current := if table in s1.indexes then s1.indexes[table] else map[];
      if columnInt in current then (Fail(SchemaObjectExists(table, columnInt)), s1)
      else (Pass, s1.(indexes := s1.indexes[table := current[columnInt := [columnInt] + indexColumns]]))
  }

  /** One round of the loop over the columns, on the schema value (the
      statements it sends are ColumnLog): nothing when the shadow column
      exists; otherwise the function (or the ';' exception), the trigger,
      the column and its index. The boolean says whether the shadow column
      was missing. */
  function ColumnStep(prefixedTable: string, s: Schema, table: string, column: string, indexColumns: seq<string>)
    : (r: (Outcome, bool, Schema))
    ensures r.1 <==> !(table in s.tables && H.IntName(column) in s.tables[table])
    ensures !r.1 ==> r.0 == Pass && r.2 == s
    ensures r.0.Pass? ==>
      table in s.tables &&
      r.2.tables == if r.1 then s.tables[table := s.tables[table][H.IntName(column) := IntSpec]] else s.tables
  {
    var columnInt := H.IntName(column);
    if table in s.tables && columnInt in s.tables[table] then (Pass, false, s)
    else if ';' in prefixedTable || ';' in column then
      (Fail(InvalidArgument(DelimiterMessage)), true, s)
    else
      var added := ColumnAdded(TriggerAdded(prefixedTable, FunctionAdded(prefixedTable, s, column, columnInt), columnInt),
                               table, columnInt, indexColumns);
      (added.0, true, added.1)
  }

  /** The round for a missing shadow column whose guard passes. */
  lemma ColumnStepMissing(prefixedTable: string, s: Schema, table: string, column: string, indexColumns: seq<string>)
    requires !(table in s.tables && H.IntName(column) in s.tables[table]) && ';' !in prefixedTable && ';' !in column
    ensures var columnInt := H.IntName(column);
      var added := ColumnAdded(TriggerAdded(prefixedTable, FunctionAdded(prefixedTable, s, column, columnInt), columnInt),
                               table, columnInt, indexColumns);
      ColumnStep(prefixedTable, s, table, column, indexColumns) == (added.0, true, added.1)
  {
  }

  /** The whole loop: the outcome, the shadow columns added (meaningful when
      it passed) and the schema left behind. */
  function CreateFrom(prefixedTable: string, s: Schema, table: string, columns: seq<string>, indexColumns: seq<string>)
    : (r: (Outcome, seq<string>, Schema))
    decreases |columns|
  {
    if columns == [] then (Pass, [], s)
    else
      var step := ColumnStep(prefixedTable, s, table, columns[0], indexColumns);
      if step.0.Fail? then (step.0, [], step.2)
      else
        var rest := CreateFrom(prefixedTable, step.2, table, columns[1..], indexColumns);
        (rest.0, (if step.1 then [H.IntName(columns[0])] else []) + rest.1, rest.2)
  }

  /** The three statements a round sends, by what they carry. */
  datatype PgStatement =
    | CreateFunctionSql(functionName: string, column: string, columnInt: string)
    | DropTriggerSql(columnInt: string, prefixedTable: string)
    | CreateTriggerSql(columnInt: string, prefixedTable: string, functionName: string)

  /** The SQL text of a statement. */
  function Render(st: PgStatement): Statement
  {
    match st
    case CreateFunctionSql(functionName, column, columnInt) => Sql(FunctionStatement(functionName, column, columnInt))
    case DropTriggerSql(columnInt, prefixedTable) => Sql(DropStatement(columnInt, prefixedTable))
    case CreateTriggerSql(columnInt, prefixedTable, functionName) => Sql(TriggerStatement(columnInt, prefixedTable, functionName))
  }

  function RenderAll(l: seq<PgStatement>): (r: seq<Statement>)
    ensures |r| == |l|
  {
    seq(|l|, k requires 0 <= k < |l| => Render(l[k]))
  }

  /** The two statements of createTrigger(), as sent. */
  lemma RenderDropCreate(columnInt: string, prefixedTable: string, functionName: string)
    ensures RenderAll([DropTriggerSql(columnInt, prefixedTable), CreateTriggerSql(columnInt, prefixedTable, functionName)]) ==
      [Sql(DropStatement(columnInt, prefixedTable)), Sql(TriggerStatement(columnInt, prefixedTable, functionName))]
  {
    var written := RenderAll([DropTriggerSql(columnInt, prefixedTable), CreateTriggerSql(columnInt, prefixedTable, functionName)]);
    assert written[0] == Sql(DropStatement(columnInt, prefixedTable));
    assert written[1] == Sql(TriggerStatement(columnInt, prefixedTable, functionName));
  }

  lemma RenderAllAppend(a: seq<PgStatement>, b: seq<PgStatement>)
    ensures RenderAll(a + b) == RenderAll(a) + RenderAll(b)
  {
    var l, r := RenderAll(a + b), RenderAll(a) + RenderAll(b);
    forall k | 0 <= k < |l|
      ensures l[k] == r[k]
    {
      if k < |a| {
        assert (a + b)[k] == a[k];
      } else {
        assert (a + b)[k] == b[k - |a|];
      }
    }
  }

  /** Sending one round's statements after those of the earlier rounds. */
  lemma LogAppend(log0: seq<Statement>, sent: seq<PgStatement>, written: seq<PgStatement>)
    ensures (log0 + RenderAll(sent)) + RenderAll(written) == log0 + RenderAll(sent + written)
  {
    RenderAllAppend(sent, written);
  }

  /** The statements one round sends: the function, then the DROP and the
      CREATE of the trigger; none when the shadow column exists or the
      guard throws. */
  function ColumnLog(prefixedTable: string, s: Schema, table: string, column: string): (r: seq<PgStatement>)
    ensures |r| == if (table in s.tables && H.IntName(column) in s.tables[table]) || ';' in prefixedTable || ';' in column
                   then 0 else 3
  {
    var columnInt := H.IntName(column);
    var functionName := GetFunctionName(prefixedTable, columnInt);
    if (table in s.tables && columnInt in s.tables[table]) || ';' in prefixedTable || ';' in column then []
    else [CreateFunctionSql(functionName, column, columnInt), DropTriggerSql(columnInt, prefixedTable),
          CreateTriggerSql(columnInt, prefixedTable, functionName)]
  }

  /** The statements the whole loop sends. */
  function CreateLog(prefixedTable: string, s: Schema, table: string, columns: seq<string>, indexColumns: seq<string>)
    : seq<PgStatement>
    decreases |columns|
  {
    if columns == [] then []
    else
      var step := ColumnStep(prefixedTable, s, table, columns[0], indexColumns);
      ColumnLog(prefixedTable, s, table, columns[0]) +
        if step.0.Fail? then [] else CreateLog(prefixedTable, step.2, table, columns[1..], indexColumns)
  }

  lemma {:induction false} CreateLogStep(prefixedTable: string, s: Schema, table: string, columns: seq<string>,
                                         indexColumns: seq<string>, i: nat)
    requires i < |columns|
    ensures var step := ColumnStep(prefixedTable, s, table, columns[i], indexColumns);
      CreateLog(prefixedTable, s, table, columns[i..], indexColumns) ==
        ColumnLog(prefixedTable, s, table, columns[i]) +
          if step.0.Fail? then [] else CreateLog(prefixedTable, step.2, table, columns[i + 1..], indexColumns)
  {
    assert columns[i..][0] == columns[i] && columns[i..][1..] == columns[i + 1..];
  }

  lemma {:induction false} CreateFromStep(prefixedTable: string, s: Schema, table: string, columns: seq<string>,
                                          indexColumns: seq<string>, i: nat)
    requires i < |columns|
    ensures var step := ColumnStep(prefixedTable, s, table, columns[i], indexColumns);
      CreateFrom(prefixedTable, s, table, columns[i..], indexColumns) ==
        if step.0.Fail? then (step.0, [], step.2)
        else
          var rest := CreateFrom(prefixedTable, step.2, table, columns[i + 1..], indexColumns);
          (rest.0, (if step.1 then [H.IntName(columns[i])] else []) + rest.1, rest.2)
  {
    assert columns[i..][0] == columns[i] && columns[i..][1..] == columns[i + 1..];
  }

  /** When the loop passes, it adds exactly the shadow columns the MySQL and
      SQLite handlers add, in the same order, and declares them the same
      way. */
  lemma {:induction false} CreateFromAdded(prefixedTable: string, s: Schema, table: string, columns: seq<string>,
                                           indexColumns: seq<string>)
    decreases |columns|
    requires table in s.tables
    ensures var out := CreateFrom(prefixedTable, s, table, columns, indexColumns);
      out.0.Pass? ==>
        out.1 == H.NewIntColumns(s.tables[table].Keys, columns) && table in out.2.tables &&
        out.2.tables == s.tables[table := s.tables[table] + H.Declared(out.1)]
  {
    if columns == [] {
      H.DeclaredNothing(s.tables, table);
    } else {
      var step := ColumnStep(prefixedTable, s, table, columns[0], indexColumns);
      if step.0.Pass? {
        var c := H.IntName(columns[0]);
        var s' := step.2;
        CreateFromAdded(prefixedTable, s', table, columns[1..], indexColumns);
        var rest := CreateFrom(prefixedTable, s', table, columns[1..], indexColumns);
        if rest.0.Pass? && step.1 {
          DeclaredPrepend(s.tables, table, c, rest.1);
        }
      }
    }
  }

  lemma {:induction false} DeclaredPrepend(tables: map<string, map<string, ColumnSpec>>, table: string, c: string,
                                           rest: seq<string>)
    requires table in tables
    ensures var t := tables[table := tables[table][c := IntSpec]];
      t[table].Keys == tables[table].Keys + {c} &&
      t[table := t[table] + H.Declared(rest)] == tables[table := tables[table] + H.Declared([c] + rest)]
  {
    assert H.Declared([c] + rest) == H.Declared(rest)[c := IntSpec];
    assert tables[table][c := IntSpec] + H.Declared(rest) == tables[table] + H.Declared([c] + rest);
  }

  /** A loop over columns whose shadows all exist changes nothing. */
  lemma {:induction false} CreateFromNothingNew(prefixedTable: string, s: Schema, table: string, columns: seq<string>,
                                                indexColumns: seq<string>)
    decreases |columns|
    requires table in s.tables
    requires forall k :: 0 <= k < |columns| ==> H.IntName(columns[k]) in s.tables[table]
    ensures CreateFrom(prefixedTable, s, table, columns, indexColumns) == (Pass, [], s)
  {
    if columns != [] {
      assert H.IntName(columns[0]) in s.tables[table];
      assert forall k :: 0 <= k < |columns| - 1 ==> columns[1..][k] == columns[k + 1];
      CreateFromNothingNew(prefixedTable, s, table, columns[1..], indexColumns);
      var step := ColumnStep(prefixedTable, s, table, columns[0], indexColumns);
      assert step == (Pass, false, s);
      var none: seq<string> := [];
      assert none + none == none;
    }
  }

  /** Idempotence: running the loop again on the schema it left behind
      adds nothing and changes nothing. */
  lemma CreateIdempotent(prefixedTable: string, s: Schema, table: string, columns: seq<string>, indexColumns: seq<string>)
    requires table in s.tables
    requires CreateFrom(prefixedTable, s, table, columns, indexColumns).0.Pass?
    ensures var after := CreateFrom(prefixedTable, s, table, columns, indexColumns).2;
      CreateFrom(prefixedTable, after, table, columns, indexColumns) == (Pass, [], after)
  {
    var out := CreateFrom(prefixedTable, s, table, columns, indexColumns);
    CreateFromAdded(prefixedTable, s, table, columns, indexColumns);
    H.NewIntColumnsComplete(s.tables[table].Keys, columns);
    forall k | 0 <= k < |columns|
      ensures H.IntName(columns[k]) in out.2.tables[table]
    {
      assert H.IntName(columns[k]) in s.tables[table].Keys + H.Elements(out.1);
    }
    CreateFromNothingNew(prefixedTable, out.2, table, columns, indexColumns);
  }

  /** No ';' in the names and no stale index named after a missing shadow
      column: then the loop passes. */
  lemma {:induction false} CreateFromPasses(prefixedTable: string, s: Schema, table: string, columns: seq<string>,
                                            indexColumns: seq<string>)
    decreases |columns|
    requires table in s.tables && ';' !in prefixedTable
    requires forall k :: 0 <= k < |columns| ==> ';' !in columns[k]
    requires forall k :: 0 <= k < |columns| && H.IntName(columns[k]) !in s.tables[table] ==>
      table !in s.indexes || H.IntName(columns[k]) !in s.indexes[table]
    ensures CreateFrom(prefixedTable, s, table, columns, indexColumns).0.Pass?
  {
    if columns != [] {
      var step := ColumnStep(prefixedTable, s, table, columns[0], indexColumns);
      StepPasses(prefixedTable, s, table, columns, indexColumns);
      CreateFromPasses(prefixedTable, step.2, table, columns[1..], indexColumns);
    }
  }

  /** The first round of such a loop passes, and leaves no stale index for
      the columns after it. */
  lemma StepPasses(prefixedTable: string, s: Schema, table: string, columns: seq<string>, indexColumns: seq<string>)
    requires columns != []
    requires table in s.tables && ';' !in prefixedTable
    requires forall k :: 0 <= k < |columns| ==> ';' !in columns[k]
    requires forall k :: 0 <= k < |columns| && H.IntName(columns[k]) !in s.tables[table] ==>
      table !in s.indexes || H.IntName(columns[k]) !in s.indexes[table]
    ensures var step := ColumnStep(prefixedTable, s, table, columns[0], indexColumns);
      step.0.Pass? && table in step.2.tables &&
      forall k :: 1 <= k < |columns| && H.IntName(columns[k]) !in step.2.tables[table] ==>
        table !in step.2.indexes || H.IntName(columns[k]) !in step.2.indexes[table]
  {
    var c := H.IntName(columns[0]);
    var step := ColumnStep(prefixedTable, s, table, columns[0], indexColumns);
    assert ';' !in columns[0];
    forall k | 1 <= k < |columns| && H.IntName(columns[k]) !in step.2.tables[table]
      ensures table !in step.2.indexes || H.IntName(columns[k]) !in step.2.indexes[table]
    {
      assert H.IntName(columns[k]) != c || !step.1;
    }
  }

  /** The objects one missing shadow column gets: its function, which
      assigns it from the column; the trigger named after it, which runs the
      function; and the index named after it. */
  predicate Installed(prefixedTable: string, s: Schema, table: string, column: string, indexColumns: seq<string>)
  {
    var columnInt := H.IntName(column);
    var functionName := GetFunctionName(prefixedTable, columnInt);
    var key := TriggerKey(prefixedTable, columnInt);
    functionName in s.functions && s.functions[functionName] == Assign(columnInt, column) &&
    key in s.triggers && s.triggers[key] == TriggerDefinition(functionName) &&
    table in s.indexes && columnInt in s.indexes[table] && s.indexes[table][columnInt] == [columnInt] + indexColumns
  }

  /** The loop leaves alone what it installed for a column whose shadow
      already exists. */
  lemma {:induction false} CreateFromKeeps(prefixedTable: string, s: Schema, table: string, columns: seq<string>,
                                           indexColumns: seq<string>, column: string)
    decreases |columns|
    requires table in s.tables && H.IntName(column) in s.tables[table]
    requires Installed(prefixedTable, s, table, column, indexColumns)
    ensures Installed(prefixedTable, CreateFrom(prefixedTable, s, table, columns, indexColumns).2, table, column, indexColumns)
  {
    if columns != [] {
      var step := ColumnStep(prefixedTable, s, table, columns[0], indexColumns);
      var c := H.IntName(columns[0]);
      if step.1 {
        assert c != H.IntName(column);
        FunctionNameInjective(prefixedTable, c, H.IntName(column));
      }
      assert Installed(prefixedTable, step.2, table, column, indexColumns);
      if step.0.Pass? {
        CreateFromKeeps(prefixedTable, step.2, table, columns[1..], indexColumns, column);
      }
    }
  }

  /** When the loop passes, every input column whose shadow was missing has
      its function, trigger and index. */
  lemma {:induction false} CreateFromInstalls(prefixedTable: string, s: Schema, table: string, columns: seq<string>,
                                              indexColumns: seq<string>)
    decreases |columns|
    requires table in s.tables
    ensures var out := CreateFrom(prefixedTable, s, table, columns, indexColumns);
      out.0.Pass? ==> forall k :: 0 <= k < |columns| && H.IntName(columns[k]) !in s.tables[table] ==>
        Installed(prefixedTable, out.2, table, columns[k], indexColumns)
  {
    var out := CreateFrom(prefixedTable, s, table, columns, indexColumns);
    if columns != [] && out.0.Pass? {
      var step := ColumnStep(prefixedTable, s, table, columns[0], indexColumns);
      var s' := step.2;
      assert step.0.Pass? && table in s'.tables;
      CreateFromInstalls(prefixedTable, s', table, columns[1..], indexColumns);
      if step.1 {
        assert Installed(prefixedTable, s', table, columns[0], indexColumns);
        CreateFromKeeps(prefixedTable, s', table, columns[1..], indexColumns, columns[0]);
      }
      forall k | 0 <= k < |columns| && H.IntName(columns[k]) !in s.tables[table]
        ensures Installed(prefixedTable, out.2, table, columns[k], indexColumns)
      {
        if k > 0 {
          if H.IntName(columns[k]) == H.IntName(columns[0]) {
            H.IntNameInjective(columns[k], columns[0]);
          } else {
            assert columns[k] == columns[1..][k - 1];
          }
        }
      }
    }
  }

  /** The installed trigger keeps the shadow up to date: firing it on a row
      fails exactly when the column's value does not fit PostgreSQL's
      INTEGER, and otherwise sets the shadow column to the regex shadow
      value of the column and leaves every other column alone. */
  lemma TriggerMaintainsShadow(prefixedTable: string, s: Schema, table: string, column: string, indexColumns: seq<string>,
                               row: Row)
    requires Installed(prefixedTable, s, table, column, indexColumns)
    requires column in row
    ensures var columnInt := H.IntName(column);
      var out := Fire(s.functions, RuleOf(PostgreSQL), s.triggers[TriggerKey(prefixedTable, columnInt)].action, row);
      (out.Some? <==> Shadow(RegexRule(IntMax), row[column]).Some?) &&
      (out.Some? ==>
        columnInt in out.value && out.value[columnInt] == Shadow(RegexRule(IntMax), row[column]).value &&
        forall c :: c in row && c != columnInt ==> c in out.value && out.value[c] == row[c])
  {
    var columnInt := H.IntName(column);
    assert |columnInt| > |column|;
    ApplyAssignsDefined(RegexRule(IntMax), row, [Assign(columnInt, column)]);
    if Shadow(RegexRule(IntMax), row[column]).Some? {
      ApplyAssignsEffect(RegexRule(IntMax), row, [Assign(columnInt, column)]);
    }
  }

  /** The loop invariant of create(): the columns before i have been
      handled, added holds the shadow columns they added, sent the
      statements they sent, and what is left of the loop, run from the
      current schema, completes the whole loop run from the initial one. */
  predicate LoopInvariant(prefixedTable: string, s0: Schema, s: Schema, table: string, columns: seq<string>,
                          indexColumns: seq<string>, i: nat, added: seq<string>, sent: seq<PgStatement>)
    requires i <= |columns|
  {
    var full := CreateFrom(prefixedTable, s0, table, columns, indexColumns);
    var rest := CreateFrom(prefixedTable, s, table, columns[i..], indexColumns);
    full == (rest.0, added + rest.1, rest.2) &&
    CreateLog(prefixedTable, s0, table, columns, indexColumns) == sent + CreateLog(prefixedTable, s, table, columns[i..], indexColumns)
  }

  lemma LoopStart(prefixedTable: string, s0: Schema, table: string, columns: seq<string>, indexColumns: seq<string>)
    ensures LoopInvariant(prefixedTable, s0, s0, table, columns, indexColumns, 0, [], [])
  {
    assert columns[0..] == columns;
    var full := CreateFrom(prefixedTable, s0, table, columns, indexColumns);
    var none: seq<string> := [];
    assert none + full.1 == full.1;
    var nothing: seq<PgStatement> := [];
    assert nothing + CreateLog(prefixedTable, s0, table, columns, indexColumns) == CreateLog(prefixedTable, s0, table, columns, indexColumns);
  }

  /** A round that throws ends the loop with the whole loop's outcome and
      schema, having sent all the statements the whole loop sends. */
  lemma {:induction false} LoopStepFails(prefixedTable: string, s0: Schema, s: Schema, table: string,
                                         columns: seq<string>, indexColumns: seq<string>, i: nat, added: seq<string>,
                                         sent: seq<PgStatement>)
    requires i < |columns|
    requires LoopInvariant(prefixedTable, s0, s, table, columns, indexColumns, i, added, sent)
    requires ColumnStep(prefixedTable, s, table, columns[i], indexColumns).0.Fail?
    ensures var step := ColumnStep(prefixedTable, s, table, columns[i], indexColumns);
      var full := CreateFrom(prefixedTable, s0, table, columns, indexColumns);
      full.0 == step.0 && full.2 == step.2 &&
      CreateLog(prefixedTable, s0, table, columns, indexColumns) == sent + ColumnLog(prefixedTable, s, table, columns[i])
  {
    CreateFromStep(prefixedTable, s, table, columns, indexColumns, i);
    CreateLogStep(prefixedTable, s, table, columns, indexColumns, i);
    var written := ColumnLog(prefixedTable, s, table, columns[i]);
    assert written + [] == written;
  }

  /** A round that passes keeps the invariant. */
  lemma LoopStepPasses(prefixedTable: string, s0: Schema, s: Schema, table: string, columns: seq<string>,
                       indexColumns: seq<string>, i: nat, added: seq<string>, sent: seq<PgStatement>)
    requires i < |columns|
    requires LoopInvariant(prefixedTable, s0, s, table, columns, indexColumns, i, added, sent)
    requires ColumnStep(prefixedTable, s, table, columns[i], indexColumns).0.Pass?
    ensures var step := ColumnStep(prefixedTable, s, table, columns[i], indexColumns);
      LoopInvariant(prefixedTable, s0, step.2, table, columns, indexColumns, i + 1,
                    added + (if step.1 then [H.IntName(columns[i])] else []),
                    sent + ColumnLog(prefixedTable, s, table, columns[i]))
  {
    PassKeepsResult(prefixedTable, CreateFrom(prefixedTable, s0, table, columns, indexColumns), s, table, columns,
                    indexColumns, i, added);
    PassKeepsLog(prefixedTable, CreateLog(prefixedTable, s0, table, columns, indexColumns), s, table, columns,
                 indexColumns, i, sent);
  }

  /** One round of the loop, either way it ends: it either keeps the
      invariant or ends the loop with the whole loop's outcome and schema. */
  lemma LoopRound(prefixedTable: string, s0: Schema, s: Schema, table: string, columns: seq<string>,
                  indexColumns: seq<string>, i: nat, added: seq<string>, sent: seq<PgStatement>)
    requires i < |columns|
    requires LoopInvariant(prefixedTable, s0, s, table, columns, indexColumns, i, added, sent)
    ensures var step := ColumnStep(prefixedTable, s, table, columns[i], indexColumns);
      var sent' := sent + ColumnLog(prefixedTable, s, table, columns[i]);
      var full := CreateFrom(prefixedTable, s0, table, columns, indexColumns);
      if step.0.Pass? then
        LoopInvariant(prefixedTable, s0, step.2, table, columns, indexColumns, i + 1,
                      added + (if step.1 then [H.IntName(columns[i])] else []), sent')
      else
        full.0 == step.0 && full.2 == step.2 && CreateLog(prefixedTable, s0, table, columns, indexColumns) == sent'
  {
    if ColumnStep(prefixedTable, s, table, columns[i], indexColumns).0.Pass? {
      LoopStepPasses(prefixedTable, s0, s, table, columns, indexColumns, i, added, sent);
    } else {
      LoopStepFails(prefixedTable, s0, s, table, columns, indexColumns, i, added, sent);
    }
  }

  lemma {:induction false} PassKeepsResult(prefixedTable: string, full: (Outcome, seq<string>, Schema), s: Schema,
                                           table: string, columns: seq<string>, indexColumns: seq<string>, i: nat,
                                           added: seq<string>)
    requires i < |columns|
    requires var rest := CreateFrom(prefixedTable, s, table, columns[i..], indexColumns);
      full == (rest.0, added + rest.1, rest.2)
    requires ColumnStep(prefixedTable, s, table, columns[i], indexColumns).0.Pass?
    ensures var step := ColumnStep(prefixedTable, s, table, columns[i], indexColumns);
      var rest := CreateFrom(prefixedTable, step.2, table, columns[i + 1..], indexColumns);
      full == (rest.0, (added + (if step.1 then [H.IntName(columns[i])] else [])) + rest.1, rest.2)
  {
    CreateFromStep(prefixedTable, s, table, columns, indexColumns, i);
    var step := ColumnStep(prefixedTable, s, table, columns[i], indexColumns);
    var rest := CreateFrom(prefixedTable, step.2, table, columns[i + 1..], indexColumns);
    var c := if step.1 then [H.IntName(columns[i])] else [];
    var whole := CreateFrom(prefixedTable, s, table, columns[i..], indexColumns);
    assert whole == (rest.0, c + rest.1, rest.2);
    assert full.1 == added + (c + rest.1);
    assert added + (c + rest.1) == (added + c) + rest.1;
  }

  lemma {:induction false} PassKeepsLog(prefixedTable: string, full: seq<PgStatement>, s: Schema, table: string,
                                        columns: seq<string>, indexColumns: seq<string>, i: nat, sent: seq<PgStatement>)
    requires i < |columns|
    requires full == sent + CreateLog(prefixedTable, s, table, columns[i..], indexColumns)
    requires ColumnStep(prefixedTable, s, table, columns[i], indexColumns).0.Pass?
    ensures var step := ColumnStep(prefixedTable, s, table, columns[i], indexColumns);
      full == (sent + ColumnLog(prefixedTable, s, table, columns[i])) +
              CreateLog(prefixedTable, step.2, table, columns[i + 1..], indexColumns)
  {
    CreateLogStep(prefixedTable, s, table, columns, indexColumns, i);
    var step := ColumnStep(prefixedTable, s, table, columns[i], indexColumns);
    var written := ColumnLog(prefixedTable, s, table, columns[i]);
    var restLog := CreateLog(prefixedTable, step.2, table, columns[i + 1..], indexColumns);
    assert sent + (written + restLog) == (sent + written) + restLog;
  }

  /** Past the last column, the loop has produced the whole loop's result. */
  lemma LoopEnd(prefixedTable: string, s0: Schema, s: Schema, table: string, columns: seq<string>,
                indexColumns: seq<string>, added: seq<string>, sent: seq<PgStatement>)
    requires LoopInvariant(prefixedTable, s0, s, table, columns, indexColumns, |columns|, added, sent)
    ensures CreateFrom(prefixedTable, s0, table, columns, indexColumns) == (Pass, added, s)
    ensures CreateLog(prefixedTable, s0, table, columns, indexColumns) == sent
  {
    assert columns[|columns|..] == [];
    assert added + [] == added;
    assert sent + [] == sent;
  }

  class IntColumnHandlerPostgreSQL {
    const connection: Database

    constructor (connection: Database)
      requires connection.engine == PostgreSQL
      ensures this.connection == connection
    {
      this.connection := connection;
    }

    /** create(): nothing at all unless every input column exists; then the
        loop over the columns, left at the first exception. */
    method Create(table: string, columns: seq<string>, indexColumns: seq<string>) returns (r: Result<seq<string>>)
      modifies connection
      ensures var s := old(connection.State());
        var prefixedTable := GetPrefixedTable(connection.prefixTables, table);
        var out := CreateFrom(prefixedTable, s, table, columns, indexColumns);
        if !AllColumnsExist(s.tables, table, columns) then r == Ok([]) && connection.State() == s && connection.log == old(connection.log)
        else
          r == (if out.0.Pass? then Ok(out.1) else Err(out.0.error)) && connection.State() == out.2 &&
          connection.log == old(connection.log) + RenderAll(CreateLog(prefixedTable, s, table, columns, indexColumns))
    {
      if !AllColumnsExist(connection.tables, table, columns) {
        return Ok([]);
      }
      ghost var prefixedTable := GetPrefixedTable(connection.prefixTables, table);
      ghost var s0 := connection.State();
      var added: seq<string> := [];
      ghost var sent: seq<PgStatement> := [];
      var i := 0;
      LoopStart(prefixedTable, s0, table, columns, indexColumns);
      assert old(connection.log) + RenderAll([]) == old(connection.log);
      while i < |columns|
        invariant 0 <= i <= |columns|
        invariant LoopInvariant(prefixedTable, s0, connection.State(), table, columns, indexColumns, i, added, sent)
        invariant connection.log == old(connection.log) + RenderAll(sent)
      {
        var o;
        o, added, sent := CreateRound(table, columns, indexColumns, i, added, s0, sent, old(connection.log));
        if o.Fail? {
          return Err(o.error);
        }
        i := i + 1;
      }
      LoopEnd(prefixedTable, s0, connection.State(), table, columns, indexColumns, added, sent);
      r := Ok(added);
    }

    /** One round of the loop of create(), with the loop invariant it
        keeps or the outcome it ends the loop with. */
    method CreateRound(table: string, columns: seq<string>, indexColumns: seq<string>, i: nat, added: seq<string>,
                       ghost s0: Schema, ghost sent: seq<PgStatement>, ghost log0: seq<Statement>)
      returns (o: Outcome, added': seq<string>, ghost sent': seq<PgStatement>)
      modifies connection
      requires i < |columns|
      requires LoopInvariant(GetPrefixedTable(connection.prefixTables, table), s0, connection.State(), table, columns, indexColumns,
                             i, added, sent)
      requires connection.log == log0 + RenderAll(sent)
      ensures var prefixedTable := GetPrefixedTable(connection.prefixTables, table);
        var full := CreateFrom(prefixedTable, s0, table, columns, indexColumns);
        if o.Pass? then
          LoopInvariant(prefixedTable, s0, connection.State(), table, columns, indexColumns, i + 1, added', sent') &&
          connection.log == log0 + RenderAll(sent')
        else
          full.0 == o && full.2 == connection.State() &&
          connection.log == log0 + RenderAll(CreateLog(prefixedTable, s0, table, columns, indexColumns))
    {
      ghost var prefixedTable := GetPrefixedTable(connection.prefixTables, table);
      ghost var s := connection.State();
      ghost var log := connection.log;
      var isNew;
      o, isNew := AddIntColumn(table, columns[i], indexColumns);
      LogAppend(log0, sent, ColumnLog(prefixedTable, s, table, columns[i]));
      LoopRound(prefixedTable, s0, s, table, columns, indexColumns, i, added, sent);
      sent' := sent + ColumnLog(prefixedTable, s, table, columns[i]);
      added' := if o.Pass? then added + (if isNew then [H.IntName(columns[i])] else []) else added;
    }

    /** One round of the loop over the columns. */
    method AddIntColumn(table: string, column: string, indexColumns: seq<string>) returns (o: Outcome, isNew: bool)
      modifies connection
      ensures var prefixedTable := GetPrefixedTable(connection.prefixTables, table);
        (o, isNew, connection.State()) == ColumnStep(prefixedTable, old(connection.State()), table, column, indexColumns) &&
        connection.log == old(connection.log) + RenderAll(ColumnLog(prefixedTable, old(connection.State()), table, column))
    {
      isNew := !connection.FieldExists(table, H.IntName(column));
      if !isNew {
        assert RenderAll([]) == [];
        return Pass, false;
      }
      o := AddMissingIntColumn(table, column, indexColumns);
    }

    /** The body of the loop for a column whose shadow is missing. */
    method AddMissingIntColumn(table: string, column: string, indexColumns: seq<string>) returns (o: Outcome)
      modifies connection
      requires !connection.FieldExists(table, H.IntName(column))
      ensures var prefixedTable := GetPrefixedTable(connection.prefixTables, table);
        var step := ColumnStep(prefixedTable, old(connection.State()), table, column, indexColumns);
        o == step.0 && connection.State() == step.2 &&
        connection.log == old(connection.log) + RenderAll(ColumnLog(prefixedTable, old(connection.State()), table, column))
    {
      var columnInt := H.IntName(column);
      ghost var prefixedTable := GetPrefixedTable(connection.prefixTables, table);
      ghost var s0 := connection.State();
      ghost var functionName := GetFunctionName(prefixedTable, columnInt);
      o := CreateShadowFunction(table, column);
      if o.Fail? {
        assert ColumnLog(prefixedTable, s0, table, column) == [];
        assert RenderAll([]) == [];
        return;
      }
      ghost var first := [CreateFunctionSql(functionName, column, columnInt)];
      ghost var second := [DropTriggerSql(columnInt, prefixedTable), CreateTriggerSql(columnInt, prefixedTable, functionName)];
      assert ';' !in "_int";
      InConcat(';', column, "_int");
      o := InstallIntColumn(table, columnInt, indexColumns);
      RenderAllAppend(first, second);
      assert first + second == ColumnLog(prefixedTable, s0, table, column);
      ColumnStepMissing(prefixedTable, s0, table, column, indexColumns);
    }

    /** createTriggerFunction() for a column's shadow, its guard read in
        terms of the names. */
    method CreateShadowFunction(table: string, column: string) returns (o: Outcome)
      modifies connection
      ensures var prefixedTable := GetPrefixedTable(connection.prefixTables, table);
        var columnInt := H.IntName(column);
        var functionName := GetFunctionName(prefixedTable, columnInt);
        if ';' in prefixedTable || ';' in column then
          o == Fail(InvalidArgument(DelimiterMessage)) && connection.State() == old(connection.State()) &&
          connection.log == old(connection.log)
        else
          o == Pass && connection.State() == FunctionAdded(prefixedTable, old(connection.State()), column, columnInt) &&
          connection.log == old(connection.log) + RenderAll([CreateFunctionSql(functionName, column, columnInt)])
    {
      GuardMeaning(GetPrefixedTable(connection.prefixTables, table), column);
      o := CreateTriggerFunction(table, column, H.IntName(column));
    }

    /** The rest of a round once the function exists: the trigger, then
        the shadow column and its index. */
    method InstallIntColumn(table: string, columnInt: string, indexColumns: seq<string>) returns (o: Outcome)
      modifies connection
      requires ';' !in GetPrefixedTable(connection.prefixTables, table) && ';' !in columnInt
      ensures var prefixedTable := GetPrefixedTable(connection.prefixTables, table);
        (o, connection.State()) == ColumnAdded(TriggerAdded(prefixedTable, old(connection.State()), columnInt),
                                               table, columnInt, indexColumns) &&
        connection.log == old(connection.log) +
          RenderAll([DropTriggerSql(columnInt, prefixedTable),
                     CreateTriggerSql(columnInt, prefixedTable, GetFunctionName(prefixedTable, columnInt))])
    {
      ghost var prefixedTable := GetPrefixedTable(connection.prefixTables, table);
      FunctionNameInjective(prefixedTable, columnInt, columnInt);
      TriggerStatementsAccepted(columnInt, prefixedTable, GetFunctionName(prefixedTable, columnInt));
      o := CreateTrigger(table, columnInt);
      o := AddColumnAndIndex(table, columnInt, indexColumns);
    }

    /** The shadow column, then its index; the first to throw ends it. */
    method AddColumnAndIndex(table: string, columnInt: string, indexColumns: seq<string>) returns (o: Outcome)
      modifies connection
      ensures (o, connection.State()) == ColumnAdded(old(connection.State()), table, columnInt, indexColumns)
      ensures connection.log == old(connection.log)
    {
      o := connection.AddField(table, columnInt, IntSpec);
      if o.Fail? {
        return;
      }
      o := connection.AddIndex(table, columnInt, [columnInt] + indexColumns);
    }

    /** createTriggerFunction(): refuses a query holding ';' with nothing
        sent; otherwise creates (or replaces) the function. */
    method CreateTriggerFunction(table: string, column: string, columnInt: string) returns (o: Outcome)
      modifies connection
      ensures var prefixedTable := GetPrefixedTable(connection.prefixTables, table);
        var functionName := GetFunctionName(prefixedTable, columnInt);
        if ';' in FunctionQuery(functionName, column, columnInt) then
          o == Fail(InvalidArgument(DelimiterMessage)) && connection.State() == old(connection.State()) &&
          connection.log == old(connection.log)
        else
          o == Pass && connection.State() == FunctionAdded(prefixedTable, old(connection.State()), column, columnInt) &&
          connection.log == old(connection.log) + RenderAll([CreateFunctionSql(functionName, column, columnInt)])
    {
      var functionName := GetFunctionName(GetPrefixedTable(connection.prefixTables, table), columnInt);
      var query := FunctionQuery(functionName, column, columnInt);
      if ';' in query {
        return Fail(InvalidArgument(DelimiterMessage));
      }
      var statement := FunctionStatement(functionName, column, columnInt);
      o := connection.CreateFunction(functionName, Assign(columnInt, column), statement, true);
      ghost var written := RenderAll([CreateFunctionSql(functionName, column, columnInt)]);
      assert written[0] == Sql(statement);
      assert written == [Sql(statement)];
    }

    /** createTrigger(): drops the trigger named after the shadow column on
        the table, then creates it anew; query() refuses either statement
        when it holds a ';' before its end. */
    method CreateTrigger(table: string, columnInt: string) returns (o: Outcome)
      modifies connection
      ensures var prefixedTable := GetPrefixedTable(connection.prefixTables, table);
        var functionName := GetFunctionName(prefixedTable, columnInt);
        var drop := DropStatement(columnInt, prefixedTable);
        var create := TriggerStatement(columnInt, prefixedTable, functionName);
        if Refused(drop, false) then
          o == Fail(InvalidArgument(DelimiterMessage)) && connection.State() == old(connection.State()) &&
          connection.log == old(connection.log)
        else if Refused(create, false) then
          o == Fail(InvalidArgument(DelimiterMessage)) &&
          connection.State() == old(connection.State()).(triggers := old(connection.triggers) - {TriggerKey(prefixedTable, columnInt)}) &&
          connection.log == old(connection.log) + [Sql(drop)]
        else
          o == Pass && connection.State() == TriggerAdded(prefixedTable, old(connection.State()), columnInt) &&
          connection.log == old(connection.log) + RenderAll([DropTriggerSql(columnInt, prefixedTable),
                                                             CreateTriggerSql(columnInt, prefixedTable, functionName)])
    {
      var prefixedTable := GetPrefixedTable(connection.prefixTables, table);
      var functionName := GetFunctionName(prefixedTable, columnInt);
      var drop, create := DropStatement(columnInt, prefixedTable), TriggerStatement(columnInt, prefixedTable, functionName);
      var key := TriggerKey(prefixedTable, columnInt);
      o := connection.DropTriggerOn(prefixedTable, columnInt, drop, false);
      if o.Fail? {
        return;
      }
      ghost var dropped := connection.State();
      assert dropped == old(connection.State()).(triggers := old(connection.triggers) - {key});
      o := connection.CreateTrigger(key, TriggerDefinition(functionName), create, false);
      if o.Fail? {
        return;
      }
      assert connection.State() == dropped.(triggers := dropped.triggers[key := TriggerDefinition(functionName)]);
      RenderDropCreate(columnInt, prefixedTable, functionName);
      assert connection.log == old(connection.log) + [Sql(drop)] + [Sql(create)];
    }
  }
}
