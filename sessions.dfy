/**
 * The session a table works through: selects execute at once against the
 * store, mutations are staged on a batch that the caller commits later, and
 * schema statements execute at once.
 */
module Sessions {
  import opened Wrappers
  import opened Cql
  import opened Entries

  class Session {
    /** The mutations staged so far, in order. */
    var batch: seq<Statement>
    /** The selects executed so far, in order. */
    var executed: seq<Select>
    /** The schema statements sent so far, in order, whether or not they ran. */
    var schema: seq<string>
    /** The store's answer to a select: its rows, or `None` when the driver fails. */
    const store: Select -> Option<seq<CqlRow>>
    /**
     * Whether the cluster runs a schema statement; a refused one (a syntax
     * error, a conflicting definition, an unreachable node) makes the driver throw.
     */
    const accepts: string -> bool

    constructor (store: Select -> Option<seq<CqlRow>>, accepts: string -> bool)
      ensures batch == [] && executed == [] && schema == []
      ensures this.store == store && this.accepts == accepts
    {
      this.store := store;
      this.accepts := accepts;
      batch, executed, schema := [], [], [];
    }

    /** `session.add`: stage a mutation on the batch. */
    method Add(s: Statement)
      modifies this
      ensures batch == old(batch) + [s]
      ensures executed == old(executed) && schema == old(schema)
    {
      batch := batch + [s];
    }

    /** `session.execute(select)`: run a select and return its rows. */
    method Execute(s: Select) returns (rows: Option<seq<CqlRow>>)
      modifies this
      ensures executed == old(executed) + [s] && rows == store(s)
      ensures batch == old(batch) && schema == old(schema)
    {
      executed := executed + [s];
      rows := store(s);
    }

    /** `session.execute(cql)` for a schema statement: send it, and report whether the driver did not throw. */
    method ExecuteSchema(cql: string) returns (ok: bool)
      modifies this
      ensures schema == old(schema) + [cql] && ok == accepts(cql)
      ensures batch == old(batch) && executed == old(executed)
    {
      schema := schema + [cql];
      ok := accepts(cql);
    }
  }
}
