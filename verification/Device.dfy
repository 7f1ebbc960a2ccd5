/** What the client does to its tables: local edits, the result of each pushed
    row, a pulled page. */
module Device {
  import opened Rows
  import opened Server

  type Tables = map<Key, Local>

  /** The one conversion of a server row into a local one. */
  function FromWire(r: Row): Local {
    Local(r.fields, r.version, false, r.updated)
  }

  /** The row shows what the server's row says. */
  predicate Matches(local: Local, row: Row) {
    local.version == row.version && local.fields == row.fields
  }

  function ToWrite(k: Key, row: Local): Write {
    Write(k, row.fields, row.version)
  }

  function DirtyKeys(tables: Tables): set<Key> {
    set k | k in tables && tables[k].dirty
  }

  // ---------- The result of a pushed row ----------

  /** The server holds this version of the row even if the row moved on; the
      flag survives when it did. */
  function AfterAccepted(tables: Tables, k: Key, sent: Local, server: Row): Tables {
    if k !in tables then tables
    else tables[k := tables[k].(version := server.version, dirty := tables[k].updated != sent.updated)]
  }

  /** The kept copy of a conflicted note: everything the row holds now, under a
      new id the server has never had, with a marker after the title. */
  function Forked(row: Local, marker: string): Local {
    Local(row.fields.(title := row.fields.title + " " + marker), 0, true, row.updated)
  }

  /** A conflicted note is forked before the server's copy goes over it; a row
      of the other tables is simply replaced. */
  function AfterConflict(tables: Tables, k: Key, server: Row, fork: Id, marker: string): Tables {
    if k.table != Notes then tables[k := FromWire(server)]
    else if k !in tables then tables
    else tables[Key(Notes, fork) := Forked(tables[k], marker)][k := FromWire(server)]
  }

  function AfterResult(tables: Tables, k: Key, sent: Local, outcome: Outcome, fork: Id, marker: string): Tables {
    match outcome
    case Accepted(r) => AfterAccepted(tables, k, sent, r)
    case Conflict(r) => AfterConflict(tables, k, r, fork, marker)
    case Forbidden => tables
  }

  // ---------- A pulled page ----------

  const PAGE := 100
  const MAX_PAGES := 20

  predicate Skipped(tables: Tables, k: Key) {
    k in tables && tables[k].dirty
  }

  /** Every row of the page goes over the local one, except over a dirty one. */
  function AfterPage(tables: Tables, remote: map<Key, Row>): Tables {
    map k | k in tables.Keys + remote.Keys ::
      if k in remote && !Skipped(tables, k) then FromWire(remote[k]) else tables[k]
  }
}
