/** The SQLite dialect of the shadow column handler: an AFTER trigger that
    updates the row just written, identified by its ROWID. */
module IntColumnHandlerSQLite {
  import opened Wrappers
  import opened Strings
  import opened Database

  /** createBody(): the assignment of one shadow column, a bare CAST with no
      digit check, so the trigger applies the cast rule. */
  function CreateBody(columnInt: string, column: string): (r: string)
    ensures ';' in r <==> ';' in columnInt || ';' in column
    ensures columnInt <= r
  {
    columnInt + " = CAST(" + column + " AS INTEGER)"
  }

  /** The table the trigger's UPDATE names: the last '.'-separated segment of
      the prefixed name, since a trigger body cannot name another database. */
  function UpdateTarget(prefixedName: string): (r: string)
    ensures '.' !in r
    ensures |r| <= |prefixedName| && r == prefixedName[|prefixedName| - |r|..]
    ensures '.' !in prefixedName ==> r == prefixedName
  {
    LastSegment(prefixedName, '.')
  }

  /** The query createTrigger() assembles before appending its tail. */
  function TriggerQuery(trigger: string, op: Event, prefixedName: string, body: string): string
  {
    "\n        CREATE TRIGGER " + trigger + " AFTER " + EventName(op) + " ON " + prefixedName +
    "\n        FOR EACH ROW\n        BEGIN\n          UPDATE " + UpdateTarget(prefixedName) + " SET " + body + " WHERE ROWID=NEW.ROWID"
  }

  /** The fixed parts of the trigger query hold no ';'. */
  lemma QueryHeadLiterals()
    ensures ';' !in "\n        CREATE TRIGGER " && ';' !in " AFTER " && ';' !in " ON "
  {
  }

  lemma QueryBodyLiteral()
    ensures ';' !in "\n        FOR EACH ROW\n        BEGIN\n          UPDATE "
  {
    var a, b, c := "\n        FOR EACH ROW", "\n        BEGIN", "\n          UPDATE ";
    assert ';' !in a && ';' !in b && ';' !in c;
    InConcat(';', a, b);
    InConcat(';', a + b, c);
    assert a + b + c == "\n        FOR EACH ROW\n        BEGIN\n          UPDATE ";
  }

  lemma QueryTailLiterals()
    ensures ';' !in " SET " && ';' !in " WHERE ROWID=NEW.ROWID"
  {
  }

  /** A ';' in the UPDATE target comes from the prefixed name. */
  lemma UpdateTargetDelimiter(prefixedName: string)
    ensures ';' in UpdateTarget(prefixedName) ==> ';' in prefixedName
  {
    var t := UpdateTarget(prefixedName);
    if ';' in t {
      var k :| 0 <= k < |t| && t[k] == ';';
      assert prefixedName[|prefixedName| - |t| + k] == ';';
    }
  }

  /** The ';' guard of createTrigger() fires exactly when the trigger name,
      the prefixed table name or the body holds a ';'. */
  lemma TriggerQueryDelimiter(trigger: string, op: Event, prefixedName: string, body: string)
    ensures ';' in TriggerQuery(trigger, op, prefixedName, body) <==> ';' in trigger || ';' in prefixedName || ';' in body
  {
    QueryHeadLiterals();
    QueryBodyLiteral();
    QueryTailLiterals();
    UpdateTargetDelimiter(prefixedName);
    assert ';' !in EventName(op);
    QueryPartsDelimiter("\n        CREATE TRIGGER ", trigger, " AFTER ", EventName(op), " ON ", prefixedName,
                        "\n        FOR EACH ROW\n        BEGIN\n          UPDATE ", UpdateTarget(prefixedName), " SET ",
                        body, " WHERE ROWID=NEW.ROWID");
  }

  /** The same, for the query's pieces taken as unknowns. */
  lemma QueryPartsDelimiter(l1: string, trigger: string, l2: string, event: string, l3: string, prefixedName: string,
                            l4: string, target: string, l5: string, body: string, l6: string)
    requires ';' !in l1 && ';' !in l2 && ';' !in l3 && ';' !in l4 && ';' !in l5 && ';' !in l6 && ';' !in event
    requires ';' in target ==> ';' in prefixedName
    ensures ';' in l1 + trigger + l2 + event + l3 + prefixedName + l4 + target + l5 + body + l6 <==>
      ';' in trigger || ';' in prefixedName || ';' in body
  {
    var q := l1 + trigger;
    InConcat(';', l1, trigger);
    InConcat(';', q, l2); q := q + l2;
    InConcat(';', q, event); q := q + event;
    InConcat(';', q, l3); q := q + l3;
    InConcat(';', q, prefixedName); q := q + prefixedName;
    InConcat(';', q, l4); q := q + l4;
    InConcat(';', q, target); q := q + target;
    InConcat(';', q, l5); q := q + l5;
    InConcat(';', q, body); q := q + body;
    InConcat(';', q, l6);
  }

  /** The statement actually sent once the guard has passed. */
  function ExecutedQuery(trigger: string, op: Event, prefixedName: string, body: string): string
  {
    TriggerQuery(trigger, op, prefixedName, body) + "; END"
  }

  /** What that statement defines: a row-level trigger that runs after op and
      updates the same row of the unqualified table. */
  function TriggerDefinition(op: Event, prefixedName: string, assigns: seq<Assign>): (t: Trigger)
    ensures t.timing == After && t.events == {op}
    ensures t.action.UpdateRow? && t.action.assigns == assigns && '.' !in t.action.table
  {
    Trigger(After, {op}, UpdateRow(UpdateTarget(prefixedName), assigns))
  }

  /** createTrigger(): refuses a query holding ';' with no statement sent;
      otherwise sends the query followed by "; END", with
      allow_delimiter_in_query. */
  method CreateTrigger(connection: Database, trigger: string, op: Event, prefixedName: string,
                       body: string, assigns: seq<Assign>) returns (o: Outcome)
    modifies connection
    ensures o == (if ';' in TriggerQuery(trigger, op, prefixedName, body) then Fail(InvalidArgument(DelimiterMessage)) else Pass)
    ensures connection.triggers ==
      if o.Pass? then old(connection.triggers)[TriggerKey(prefixedName, trigger) := TriggerDefinition(op, prefixedName, assigns)]
      else old(connection.triggers)
    ensures connection.log ==
      if o.Pass? then old(connection.log) + [Sql(ExecutedQuery(trigger, op, prefixedName, body))] else old(connection.log)
    ensures connection.tables == old(connection.tables) && connection.indexes == old(connection.indexes)
    ensures connection.functions == old(connection.functions)
  {
    var query := TriggerQuery(trigger, op, prefixedName, body);
    if ';' in query {
      return Fail(InvalidArgument(DelimiterMessage));
    }
    o := connection.CreateTrigger(TriggerKey(prefixedName, trigger), TriggerDefinition(op, prefixedName, assigns),
                                  query + "; END", true);
  }
}
