/** The MySQL dialect of the shadow column handler: a BEFORE trigger whose
    SET clause assigns every shadow column from its string column. */
module IntColumnHandlerMySQL {
  import opened Wrappers
  import opened Database

  /** createBody(): the assignment of one shadow column. It guards the
      unsigned cast with the '^[0-9]+$' regex, so the trigger applies the
      regex rule. Only the column names can bring a ';' into it. */
  function CreateBody(columnInt: string, column: string): (r: string)
    ensures ';' in r <==> ';' in columnInt || ';' in column
    ensures r != [] && r[|r| - 1] == ')'
  {
    "NEW." + columnInt + " = IF(NEW." + column + " REGEXP '^[0-9]+$', CAST(NEW." + column + " AS UNSIGNED), NULL)"
  }

  /** The one statement createTrigger() sends. */
  function TriggerStatement(trigger: string, op: Event, prefixedName: string, body: string): (r: string)
    ensures ';' in r <==> ';' in trigger || ';' in prefixedName || ';' in body
  {
    "CREATE TRIGGER " + trigger + " BEFORE " + EventName(op) + " ON " + prefixedName + " FOR EACH ROW SET " + body
  }

  /** What that statement defines: a row-level trigger that runs before op
      and rewrites the incoming row. */
  function TriggerDefinition(op: Event, assigns: seq<Assign>): (t: Trigger)
    ensures t.timing == Before && t.events == {op}
    ensures t.action.SetNew? && t.action.assigns == assigns
  {
    Trigger(Before, {op}, SetNew(assigns))
  }

  /** createTrigger(): one CREATE TRIGGER statement on the prefixed table,
      sent without allow_delimiter_in_query, so query() refuses it when it
      holds a ';' before its last character. */
  method CreateTrigger(connection: Database, trigger: string, op: Event, prefixedName: string,
                       body: string, assigns: seq<Assign>) returns (o: Outcome)
    modifies connection
    ensures var statement := TriggerStatement(trigger, op, prefixedName, body);
      o == if Refused(statement, false) then Fail(InvalidArgument(DelimiterMessage)) else Pass
    ensures connection.triggers ==
      if o.Pass? then old(connection.triggers)[TriggerKey(prefixedName, trigger) := TriggerDefinition(op, assigns)]
      else old(connection.triggers)
    ensures connection.log ==
      if o.Pass? then old(connection.log) + [Sql(TriggerStatement(trigger, op, prefixedName, body))] else old(connection.log)
    ensures connection.tables == old(connection.tables) && connection.indexes == old(connection.indexes)
    ensures connection.functions == old(connection.functions)
  {
    o := connection.CreateTrigger(TriggerKey(prefixedName, trigger), TriggerDefinition(op, assigns),
                                  TriggerStatement(trigger, op, prefixedName, body), false);
  }
}
