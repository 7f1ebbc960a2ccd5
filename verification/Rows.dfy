/** The rows that travel between the server and the devices of one user: four
    tables of one shape, each row named by its table and its id. */
module Rows {

  datatype Table = Classes | Notebooks | Notes | Deadlines

  type Id = string

  // A timestamp is compared for equality and for nothing else.
  type Stamp = string

  type User = int

  datatype Key = Key(table: Table, id: Id)

  /** What a client may set. A class or notebook keeps its name in `title`;
      `kind` is read for notebooks and deadlines; `rest` stands for every
      other field, none of which the protocol looks at. */
  datatype Fields = Fields(title: string, body: string, kind: string, deleted: bool, rest: string)

  /** A row as the server holds it. */
  datatype Row = Row(author: User, fields: Fields, version: nat, seqNo: nat, updated: Stamp)

  /** A row as a device holds it. */
  datatype Local = Local(fields: Fields, version: nat, dirty: bool, updated: Stamp)

  /** The fields as the server writes them: the two tables whose kind column
      is NOT NULL replace an absent kind, the other two write what came. */
  function Stored(table: Table, fields: Fields): Fields {
    if fields.kind != "" then fields
    else match table
      case Notebooks => fields.(kind := "notes")
      case Deadlines => fields.(kind := "other")
      case _ => fields
  }

  /** Every row this client writes names its kind, in the tables that have one. */
  predicate Normal(table: Table, fields: Fields) {
    fields.kind != "" || table == Classes || table == Notes
  }
}
