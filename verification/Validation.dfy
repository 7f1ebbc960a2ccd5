/** What the server asks of a pushed row before it writes anything. */
module Validation {
  import opened Rows
  import opened Server
  import opened Device
  import Uuid

  const MAX_TITLE := 200

  /** Whether the fields this model keeps as one opaque string pass. */
  type Rule = (Table, string) -> bool

  predicate IsHex(c: char) {
    '0' <= c <= '9' || 'a' <= c <= 'f' || 'A' <= c <= 'F'
  }

  predicate ValidUuid(s: string) {
    && |s| == 36
    && forall i :: 0 <= i < |s| ==> if i == 8 || i == 13 || i == 18 || i == 23 then s[i] == '-' else IsHex(s[i])
  }

  /** An absent kind is not wrong: the store fills it in. */
  predicate ValidKind(table: Table, kind: string) {
    match table
    case Notebooks => kind == "" || kind == "notes" || kind == "collegebook"
    case Deadlines => kind == "" || kind == "test" || kind == "assignment" || kind == "other"
    case _ => true
  }

  predicate ValidFields(rule: Rule, table: Table, fields: Fields) {
    |fields.title| <= MAX_TITLE && ValidKind(table, fields.kind) && rule(table, fields.rest)
  }

  predicate ValidRow(rule: Rule, w: Write) {
    ValidUuid(w.key.id) && ValidFields(rule, w.key.table, w.fields)
  }

  predicate AllValid(rule: Rule, ws: seq<Write>) {
    forall i :: 0 <= i < |ws| ==> ValidRow(rule, ws[i])
  }

  // ---------- What passes, from the rows as they came ----------

  /** A row the server takes: an id of thirty-six characters with dashes and
      hexadecimal digits in their places, a title of at most two hundred, a kind
      its table knows or none, and other fields that pass. */
  ghost predicate RowPasses(rule: Rule, table: Table, row: Pushed) {
    && |row.id| == 36 && row.id[8] == row.id[13] == row.id[18] == row.id[23] == '-'
    && (forall i :: 0 <= i < 36 && i != 8 && i != 13 && i != 18 && i != 23 ==>
          '0' <= row.id[i] <= '9' || 'a' <= row.id[i] <= 'f' || 'A' <= row.id[i] <= 'F')
    && |row.fields.title| <= 200
    && (table == Notebooks ==> row.fields.kind in ["", "notes", "collegebook"])
    && (table == Deadlines ==> row.fields.kind in ["", "test", "assignment", "other"])
    && rule(table, row.fields.rest)
  }

  ghost predicate RowsPass(rule: Rule, table: Table, rows: seq<Pushed>) {
    |rows| <= 100 && forall row :: row in rows ==> RowPasses(rule, table, row)
  }

  ghost predicate RequestPasses(rule: Rule, req: PushRequest) {
    && RowsPass(rule, Classes, req.classes) && RowsPass(rule, Notebooks, req.notebooks)
    && RowsPass(rule, Notes, req.notes) && RowsPass(rule, Deadlines, req.deadlines)
  }

  lemma ValidRowPasses(rule: Rule, table: Table, row: Pushed)
    ensures ValidRow(rule, Write(Key(table, row.id), row.fields, row.version)) <==> RowPasses(rule, table, row)
  {
    var id := row.id;
    if ValidUuid(id) {
      assert id[8] == id[13] == id[18] == id[23] == '-';
    }
  }

  lemma ValidRowsPass(rule: Rule, table: Table, rows: seq<Pushed>)
    ensures |rows| <= MAX_PUSH_ROWS && AllValid(rule, Tagged(table, rows)) <==> RowsPass(rule, table, rows)
  {
    hide ValidRow;
    hide RowPasses;
    var ws := Tagged(table, rows);
    forall i | 0 <= i < |rows|
      ensures ValidRow(rule, ws[i]) <==> RowPasses(rule, table, rows[i])
    {
      ValidRowPasses(rule, table, rows[i]);
    }
    if AllValid(rule, ws) {
      forall row | row in rows
        ensures RowPasses(rule, table, row)
      {
        var i :| 0 <= i < |rows| && rows[i] == row;
        assert ValidRow(rule, ws[i]);
      }
    }
  }

  lemma ValidTwo(rule: Rule, a: seq<Write>, b: seq<Write>)
    ensures AllValid(rule, a + b) <==> AllValid(rule, a) && AllValid(rule, b)
  {
    hide ValidRow;
    if AllValid(rule, a + b) {
      forall i | 0 <= i < |a|
        ensures ValidRow(rule, a[i])
      {
        assert (a + b)[i] == a[i];
      }
      forall i | 0 <= i < |b|
        ensures ValidRow(rule, b[i])
      {
        assert (a + b)[|a| + i] == b[i];
      }
    }
  }

  lemma ValidInParts(rule: Rule, c: seq<Write>, b: seq<Write>, n: seq<Write>, d: seq<Write>)
    ensures AllValid(rule, c + b + n + d)
            <==> AllValid(rule, c) && AllValid(rule, b) && AllValid(rule, n) && AllValid(rule, d)
  {
    hide ValidRow;
    ValidTwo(rule, c, b);
    ValidTwo(rule, c + b, n);
    ValidTwo(rule, c + b + n, d);
    hide AllValid;
  }

  lemma PassesWhole(rule: Rule, req: PushRequest)
    ensures RequestPasses(rule, req) <==> !TooLarge(req) && AllValid(rule, Writes(req))
  {
    ValidRowsPass(rule, Classes, req.classes);
    ValidRowsPass(rule, Notebooks, req.notebooks);
    ValidRowsPass(rule, Notes, req.notes);
    ValidRowsPass(rule, Deadlines, req.deadlines);
    hide RowsPass;
    ValidInParts(rule, Tagged(Classes, req.classes), Tagged(Notebooks, req.notebooks), Tagged(Notes, req.notes),
                 Tagged(Deadlines, req.deadlines));
    hide Tagged;
    hide AllValid;
  }

  // ---------- Ids ----------

  lemma DigitIsHex(n: nat)
    requires n < 16
    ensures IsHex(Uuid.Digit(n))
  {
  }

  lemma {:induction false} HexIsHex(n: nat, digits: nat)
    ensures forall i :: 0 <= i < digits ==> IsHex(Uuid.Hex(n, digits)[i])
    decreases digits
  {
    if digits > 0 {
      HexIsHex(n / 16, digits - 1);
      DigitIsHex(n % 16);
    }
  }

  lemma TwoIsHex(b: Uuid.Byte)
    ensures |Uuid.Two(b)| == 2 && IsHex(Uuid.Two(b)[0]) && IsHex(Uuid.Two(b)[1])
  {
    DigitIsHex(b / 16);
    DigitIsHex(b % 16);
  }

  lemma {:induction false} BytesAreHex(bytes: seq<Uuid.Byte>)
    ensures forall i :: 0 <= i < 2 * |bytes| ==> IsHex(Uuid.HexOf(bytes)[i])
  {
    if bytes != [] {
      BytesAreHex(bytes[..|bytes| - 1]);
      TwoIsHex(bytes[|bytes| - 1]);
    }
  }

  /** Every id the client mints passes. */
  lemma MintedIdIsValid(c: Uuid.Clock, tail: seq<Uuid.Byte>)
    requires c.lastMs >= 0 && |tail| == 8
    ensures ValidUuid(Uuid.IdOf(c, tail))
  {
    hide Uuid.Hex;
    hide Uuid.HexOf;
    hide Uuid.Two;
    HexIsHex(c.lastMs, 12);
    HexIsHex(c.counter, 3);
    TwoIsHex(tail[0] % 0x40 + 0x80);
    TwoIsHex(tail[1]);
    BytesAreHex(tail[2..]);
    hide IsHex;
  }

  // ---------- Forks ----------

  /** A note that has been through so many conflicts one after another. */
  function ForkedTimes(row: Local, marker: string, n: nat): Local {
    if n == 0 then row else Forked(ForkedTimes(row, marker, n - 1), marker)
  }

  lemma {:induction false} TitleGrows(row: Local, marker: string, n: nat)
    ensures |ForkedTimes(row, marker, n).fields.title| == |row.fields.title| + n * (|marker| + 1)
    ensures ForkedTimes(row, marker, n).fields == row.fields.(title := ForkedTimes(row, marker, n).fields.title)
  {
    if n > 0 {
      TitleGrows(row, marker, n - 1);
      assert n * (|marker| + 1) == (n - 1) * (|marker| + 1) + |marker| + 1;
    }
  }

  /** A request that pushes one note. */
  function Lone(id: Id, row: Local): PushRequest {
    PushRequest([], [], [Pushed(id, row.fields, row.version)], [])
  }

  /** A push of a fork of a note the server takes passes exactly as long as the
      markers fit behind the title, whatever id the minter gave it. The client
      never cuts it. */
  lemma ForksFit(rule: Rule, id: Id, row: Local, marker: string, n: nat, c: Uuid.Clock, tail: seq<Uuid.Byte>)
    requires RequestPasses(rule, Lone(id, row)) && c.lastMs >= 0 && |tail| == 8
    ensures RequestPasses(rule, Lone(Uuid.IdOf(c, tail), ForkedTimes(row, marker, n)))
            <==> |row.fields.title| + n * (|marker| + 1) <= 200
  {
    var fork := ForkedTimes(row, marker, n);
    var kept, sent := Pushed(id, row.fields, row.version), Pushed(Uuid.IdOf(c, tail), fork.fields, fork.version);
    TitleGrows(row, marker, n);
    MintedIdIsValid(c, tail);
    ValidRowPasses(rule, Notes, kept);
    ValidRowPasses(rule, Notes, sent);
    assert kept in Lone(id, row).notes;
    hide RowPasses;
    hide ValidUuid;
    hide ForkedTimes;
    hide Uuid.IdOf;
  }
}
