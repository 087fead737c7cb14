/** The transactions screen (app.py, TransactionsScreen): the list
    filters, and the two operations that rewrite the stored table of rows,
    deleting a record by id and saving an edited record in place. */
module TransactionsScreen {
  import opened Text
  import opened Options
  import opened Decimal
  import opened Calendar
  import opened JsonValues
  import opened Ledger
  import opened Entries

  // ---- _matches_filters ----

  /** The text the free-text filter searches: description, category and
      device joined by spaces, lower-cased. */
  function Haystack(tx: Transaction): string {
    Lower(tx.description + " " + tx.category + " " + tx.device)
  }

  /** _matches_filters, for filters already stripped and lower-cased; an
      empty filter is not applied. */
  predicate MatchesFilters(tx: Transaction, textFilter: string, deviceFilter: string, categoryFilter: string) {
    && (textFilter == "" || Contains(Haystack(tx), textFilter))
    && (deviceFilter == "" || StartsWith(Lower(tx.device), deviceFilter))
    && (categoryFilter == "" || StartsWith(Lower(tx.category), categoryFilter))
  }

  /** Typing more into any filter only narrows the list: a record that
      matches the longer filters matches their beginnings, and every
      record matches no filters at all. */
  lemma FiltersNarrow(tx: Transaction, t: string, t2: string, d: string, d2: string, c: string, c2: string)
    ensures MatchesFilters(tx, "", "", "")
    ensures MatchesFilters(tx, t + t2, d + d2, c + c2) ==> MatchesFilters(tx, t, d, c)
  {
    if t != "" && Contains(Haystack(tx), t + t2) {
      var h := Haystack(tx);
      var i :| 0 <= i <= |h| - |t + t2| && OccursAt(h, t + t2, i);
      assert h[i..i + |t|] == (t + t2)[..|t|] == t;
      assert OccursAt(h, t, i);
    }
    if d != "" && StartsWith(Lower(tx.device), d + d2) {
      assert (d + d2)[..|d|] == d;
    }
    if c != "" && StartsWith(Lower(tx.category), c + c2) {
      assert (c + c2)[..|c|] == c;
    }
  }

  /** A device filter a record passes is also found by the free-text
      filter, which searches the device among the rest. */
  lemma DeviceFilterFoundInText(tx: Transaction, f: string)
    requires StartsWith(Lower(tx.device), f)
    ensures MatchesFilters(tx, f, "", "")
  {
    var s := tx.description + " " + tx.category + " " + tx.device;
    var h := Haystack(tx);
    var i := |tx.description| + |tx.category| + 2;
    forall k | 0 <= k < |f|
      ensures h[i + k] == f[k]
    {
      assert s[i + k] == tx.device[k];
      assert Lower(tx.device)[k] == LowerChar(tx.device[k]);
    }
    assert h[i..i + |f|] == f;
    assert OccursAt(h, f, i);
  }

  // ---- the table of stored rows ----

  /** The row's "id" cell is present and equals id. */
  predicate HasId(row: Row, id: string) {
    "id" in row.fields && row.fields["id"] == id
  }

  /** Every row has an "id" cell: row['id'] raises KeyError on none. */
  predicate AllKeyed(rows: seq<Row>) {
    forall k :: 0 <= k < |rows| ==> "id" in rows[k].fields
  }

  /** [row for row in rows if row['id'] != id], for keyed rows. */
  function WithoutId(rows: seq<Row>, id: string): (r: seq<Row>)
    ensures |r| <= |rows|
  {
    if rows == [] then []
    else
      var front := rows[..|rows| - 1];
      var last := rows[|rows| - 1];
      assert rows == front + [last];
      WithoutId(front, id) + (if HasId(last, id) then [] else [last])
  }

  /** The rows kept are exactly those without the id, and the table
      keeps its length exactly when no row has the id. */
  lemma {:induction false} WithoutIdKeeps(rows: seq<Row>, id: string)
    ensures forall x :: x in WithoutId(rows, id) <==> x in rows && !HasId(x, id)
    ensures |WithoutId(rows, id)| == |rows| <==> forall k :: 0 <= k < |rows| ==> !HasId(rows[k], id)
    ensures |WithoutId(rows, id)| == |rows| ==> WithoutId(rows, id) == rows
  {
    if rows != [] {
      var front := rows[..|rows| - 1];
      var last := rows[|rows| - 1];
      assert rows == front + [last];
      WithoutIdKeeps(front, id);
      if HasId(last, id) {
        assert |WithoutId(rows, id)| < |rows|;
      } else {
        assert forall k :: 0 <= k < |rows| - 1 ==> rows[k] == front[k];
      }
    }
  }

  /** Deleting twice deletes no more than once. */
  lemma {:induction false} WithoutIdIdempotent(rows: seq<Row>, id: string)
    ensures WithoutId(WithoutId(rows, id), id) == WithoutId(rows, id)
  {
    if rows != [] {
      var front := rows[..|rows| - 1];
      var last := rows[|rows| - 1];
      assert rows == front + [last];
      WithoutIdIdempotent(front, id);
      var w := WithoutId(front, id);
      assert WithoutId(rows, id) == w + (if HasId(last, id) then [] else [last]);
      if !HasId(last, id) {
        assert (w + [last])[..|w|] == w;
        assert WithoutId(w + [last], id) == WithoutId(w, id) + [last];
      } else {
        assert w + [] == w;
      }
    }
  }

  /** Where the search of _save_edited_transaction stops: at the first
      row with the id, at a row with no "id" cell (KeyError), or at the
      end. */
  datatype Lookup = Found(index: nat) | Absent | KeyMissingAt(index: nat)

  function LocateId(rows: seq<Row>, id: string): (r: Lookup)
    ensures r.Found? ==> r.index < |rows| && HasId(rows[r.index], id)
    ensures r.KeyMissingAt? ==> r.index < |rows| && "id" !in rows[r.index].fields
    ensures var stop := match r case Found(k) => k case KeyMissingAt(k) => k case Absent => |rows|;
      forall j :: 0 <= j < stop ==> "id" in rows[j].fields && !HasId(rows[j], id)
  {
    if rows == [] then Absent
    else if "id" !in rows[0].fields then KeyMissingAt(0)
    else if rows[0].fields["id"] == id then Found(0)
    else
      match LocateId(rows[1..], id)
      case Found(k) => Found(k + 1)
      case KeyMissingAt(k) => KeyMissingAt(k + 1)
      case Absent => Absent
  }

  /** The cells _save_edited_transaction rewrites, with the shared-splits
      cell given. */
  function EditRow(row: Row, amount: int, description: string, category: string, device: string,
                   txnDate: Date, sharedFlag: bool, splits: SplitsCell, sharedNotes: string, now: DateTime): Row {
    Row(row.fields["amount" := FormatCents(amount)]["description" := description]["category" := category]
                  ["device" := device]["date" := StrftimeYmd(txnDate)]
                  ["shared_flag" := if sharedFlag then "1" else "0"]["shared_notes" := sharedNotes]
                  ["timestamp" := FormatDateTime(now)],
        splits)
  }

  /** The cell the participant text makes when it is stored as it is:
      what json.loads (given as loads) makes of it on the next read. */
  function RawCell(text: string, loads: string -> Option<Json>): SplitsCell {
    if text == "" then Blank else Loaded(loads(text))
  }

  /** The cell the participant text makes when it is parsed as the add
      dialog parses it and serialised as the factories store it. */
  function ParsedCell(text: string): SplitsCell {
    SerializeSharedSplits(SharedEntries(text))
  }

  datatype DeleteResult = Deleted | NothingDeleted | DeleteKeyError
  datatype SaveResult = Saved | NotFound | SaveKeyError

  /** The stored transaction table, as the screen reads and rewrites it. */
  class RowTable {
    var rows: seq<Row>

    constructor(rows: seq<Row>)
      ensures this.rows == rows
    {
      this.rows := rows;
    }

    /** delete_transaction: the rows without the id. A row with no "id"
        cell raises KeyError, which is caught and leaves the table as
        it was; when no row has the id, nothing is written. */
    method DeleteTransaction(transactionId: string) returns (result: DeleteResult)
      modifies this
      ensures AllKeyed(old(rows)) ==> rows == WithoutId(old(rows), transactionId)
      ensures !AllKeyed(old(rows)) ==> rows == old(rows) && result == DeleteKeyError
      ensures result == Deleted <==> AllKeyed(old(rows)) && exists k :: 0 <= k < |old(rows)| && HasId(old(rows)[k], transactionId)
    {
      var updated: seq<Row> := [];
      var i := 0;
      while i < |rows|
        invariant 0 <= i <= |rows|
        invariant forall k :: 0 <= k < i ==> "id" in rows[k].fields
        invariant updated == WithoutId(rows[..i], transactionId)
      {
        assert rows[..i + 1][..i] == rows[..i];
        if "id" !in rows[i].fields {
          return DeleteKeyError;
        }
        if rows[i].fields["id"] != transactionId {
          updated := updated + [rows[i]];
        }
        i := i + 1;
      }
      assert rows[..|rows|] == rows;
      WithoutIdKeeps(rows, transactionId);
      if |updated| == |rows| {
        return NothingDeleted;
      }
      rows := updated;
      return Deleted;
    }

    /** The search and rewrite of _save_edited_transaction, with the
        shared-splits cell to store: the first row with the id gets the
        edited cells and the timestamp now. A row with no "id" cell met
        first raises KeyError, which is caught; the rows as read are
        then written back, so the table keeps its contents. */
    method WriteEdit(transactionId: string, amount: int, description: string, category: string,
                     device: string, txnDate: Date, sharedFlag: bool, splits: SplitsCell,
                     sharedNotes: string, now: DateTime)
      returns (result: SaveResult)
      modifies this
      ensures match LocateId(old(rows), transactionId)
        case Found(k) => result == Saved && rows == old(rows)[k := EditRow(old(rows)[k], amount, description,
                           category, device, txnDate, sharedFlag, splits, sharedNotes, now)]
        case Absent => result == NotFound && rows == old(rows)
        case KeyMissingAt(_) => result == SaveKeyError && rows == old(rows)
    {
      var i := 0;
      while i < |rows|
        invariant 0 <= i <= |rows|
        invariant forall j :: 0 <= j < i ==> "id" in rows[j].fields && !HasId(rows[j], transactionId)
      {
        if "id" !in rows[i].fields {
          LocateStops(rows, transactionId, i);
          return SaveKeyError;
        }
        if rows[i].fields["id"] == transactionId {
          LocateStops(rows, transactionId, i);
          rows := rows[i := EditRow(rows[i], amount, description, category, device, txnDate,
                                    sharedFlag, splits, sharedNotes, now)];
          return Saved;
        }
        i := i + 1;
      }
      LocateAbsent(rows, transactionId);
      return NotFound;
    }

    /** _save_edited_transaction as written: the participant text is
        stored in the shared-splits cell as it was typed. */
    method SaveEditedTransactionAsWritten(transactionId: string, amount: int, description: string,
                                          category: string, device: string, txnDate: Date,
                                          sharedFlag: bool, sharedParticipants: string,
                                          sharedNotes: string, now: DateTime,
                                          loads: string -> Option<Json>)
      returns (result: SaveResult)
      modifies this
      ensures match LocateId(old(rows), transactionId)
        case Found(k) => result == Saved && rows == old(rows)[k := EditRow(old(rows)[k], amount, description,
                           category, device, txnDate, sharedFlag, RawCell(sharedParticipants, loads), sharedNotes, now)]
        case Absent => result == NotFound && rows == old(rows)
        case KeyMissingAt(_) => result == SaveKeyError && rows == old(rows)
    {
      result := WriteEdit(transactionId, amount, description, category, device, txnDate, sharedFlag,
                          RawCell(sharedParticipants, loads), sharedNotes, now);
    }

    /** _save_edited_transaction with the participant text parsed and
        serialised, as a new shared expense stores it. */
    method SaveEditedTransaction(transactionId: string, amount: int, description: string,
                                 category: string, device: string, txnDate: Date,
                                 sharedFlag: bool, sharedParticipants: string,
                                 sharedNotes: string, now: DateTime)
      returns (result: SaveResult)
      modifies this
      ensures match LocateId(old(rows), transactionId)
        case Found(k) => result == Saved && rows == old(rows)[k := EditRow(old(rows)[k], amount, description,
                           category, device, txnDate, sharedFlag, ParsedCell(sharedParticipants), sharedNotes, now)]
        case Absent => result == NotFound && rows == old(rows)
        case KeyMissingAt(_) => result == SaveKeyError && rows == old(rows)
    {
      var entries := ParseSharedEntries(sharedParticipants);
      result := WriteEdit(transactionId, amount, description, category, device, txnDate, sharedFlag,
                          SerializeSharedSplits(entries), sharedNotes, now);
    }
  }

  lemma {:induction false} LocateStops(rows: seq<Row>, id: string, i: int)
    requires 0 <= i < |rows|
    requires forall j :: 0 <= j < i ==> "id" in rows[j].fields && !HasId(rows[j], id)
    ensures "id" !in rows[i].fields ==> LocateId(rows, id) == KeyMissingAt(i)
    ensures HasId(rows[i], id) ==> LocateId(rows, id) == Found(i)
  {
    if i > 0 {
      LocateStops(rows[1..], id, i - 1);
    }
  }

  lemma {:induction false} LocateAbsent(rows: seq<Row>, id: string)
    requires forall j :: 0 <= j < |rows| ==> "id" in rows[j].fields && !HasId(rows[j], id)
    ensures LocateId(rows, id) == Absent
  {
    if rows != [] {
      LocateAbsent(rows[1..], id);
    }
  }

  // ---- what an edited row reads back as ----

  /** The cells an edit writes, read back by column. */
  lemma EditedCells(row: Row, amount: int, description: string, category: string, device: string,
                    txnDate: Date, sharedFlag: bool, splits: SplitsCell, sharedNotes: string, now: DateTime)
    ensures var f := EditRow(row, amount, description, category, device, txnDate, sharedFlag, splits, sharedNotes, now).fields;
      && "amount" in f && f["amount"] == FormatCents(amount)
      && "description" in f && f["description"] == description
      && "category" in f && f["category"] == category
      && "device" in f && f["device"] == device
      && "date" in f && f["date"] == StrftimeYmd(txnDate)
      && "shared_flag" in f && f["shared_flag"] == (if sharedFlag then "1" else "0")
      && "shared_notes" in f && f["shared_notes"] == sharedNotes
      && "timestamp" in f && f["timestamp"] == FormatDateTime(now)
  {
  }

  /** An edit adds its eight columns to the row and leaves every other
      cell as it was. */
  lemma EditedFields(row: Row, amount: int, description: string, category: string, device: string,
                     txnDate: Date, sharedFlag: bool, splits: SplitsCell, sharedNotes: string, now: DateTime)
    ensures var f := EditRow(row, amount, description, category, device, txnDate, sharedFlag, splits, sharedNotes, now).fields;
      && f.Keys == row.fields.Keys + {"amount", "description", "category", "device", "date",
                                     "shared_flag", "shared_notes", "timestamp"}
      && forall k :: k in row.fields && k !in {"amount", "description", "category", "device", "date",
                                                "shared_flag", "shared_notes", "timestamp"}
           ==> f[k] == row.fields[k]
  {
  }

  lemma FlagWords()
    ensures TruthWord("1") && !TruthWord("0")
  {
    assert Lower("1") == "1";
    assert Lower("0") == "0";
  }

  /** A row edited with parsed participants reads back as the edit: its
      amount, text cells, date and timestamp as saved, the participants
      as parsed, and the flag set when asked for and someone shares. */
  lemma EditReadsBack(row: Row, amount: int, description: string, category: string, device: string,
                      txnDate: Date, sharedFlag: bool, sharedParticipants: string, sharedNotes: string,
                      now: DateTime, today: Date, later: DateTime, freshId: string)
    requires ValidDate(txnDate) && ValidDateTime(now)
    ensures var tx := TransactionFromRow(EditRow(row, amount, description, category, device, txnDate,
                                                 sharedFlag, ParsedCell(sharedParticipants), sharedNotes, now),
                                         today, later, freshId);
      && tx.amount == amount && tx.description == description && tx.category == category
      && tx.device == device && tx.date == txnDate && tx.timestamp == now
      && tx.sharedNotes == sharedNotes
      && tx.sharedSplits == SharedEntries(sharedParticipants)
      && (tx.sharedFlag <==> sharedFlag && SharedEntries(sharedParticipants) != [])
  {
    EditedCells(row, amount, description, category, device, txnDate, sharedFlag,
                ParsedCell(sharedParticipants), sharedNotes, now);
    ReadBack(EditRow(row, amount, description, category, device, txnDate, sharedFlag,
                     ParsedCell(sharedParticipants), sharedNotes, now),
             amount, description, category, device, txnDate, sharedFlag, sharedParticipants, sharedNotes,
             now, today, later, freshId);
  }

  /** Any row holding the cells an edit writes reads back as the edit. */
  lemma ReadBack(edited: Row, amount: int, description: string, category: string, device: string,
                 txnDate: Date, sharedFlag: bool, sharedParticipants: string, sharedNotes: string,
                 now: DateTime, today: Date, later: DateTime, freshId: string)
    requires ValidDate(txnDate) && ValidDateTime(now)
    requires var f := edited.fields;
      && "amount" in f && f["amount"] == FormatCents(amount)
      && "description" in f && f["description"] == description
      && "category" in f && f["category"] == category
      && "device" in f && f["device"] == device
      && "date" in f && f["date"] == StrftimeYmd(txnDate)
      && "shared_flag" in f && f["shared_flag"] == (if sharedFlag then "1" else "0")
      && "shared_notes" in f && f["shared_notes"] == sharedNotes
      && "timestamp" in f && f["timestamp"] == FormatDateTime(now)
    requires edited.splits == ParsedCell(sharedParticipants)
    ensures var tx := TransactionFromRow(edited, today, later, freshId);
      && tx.amount == amount && tx.description == description && tx.category == category
      && tx.device == device && tx.date == txnDate && tx.timestamp == now
      && tx.sharedNotes == sharedNotes
      && tx.sharedSplits == SharedEntries(sharedParticipants)
      && (tx.sharedFlag <==> sharedFlag && SharedEntries(sharedParticipants) != [])
  {
    FormatParse(amount);
    IsoDateRoundTrip(txnDate);
    DateTimeRoundTrip(now);
    SplitsRoundTrip(SharedEntries(sharedParticipants));
    FlagWords();
  }

  /** A participant list that is not JSON, as typed, loses every
      participant and the shared flag when the row is next read: the
      edit as written drops "alice", which the parsed cell keeps. */
  lemma RawParticipantsLost(row: Row, amount: int, description: string, category: string, device: string,
                            txnDate: Date, sharedNotes: string, now: DateTime,
                            loads: string -> Option<Json>, today: Date, later: DateTime, freshId: string)
    requires ValidDate(txnDate) && ValidDateTime(now)
    requires loads("alice") == None
    ensures var asWritten := TransactionFromRow(EditRow(row, amount, description, category, device, txnDate,
                                                        true, RawCell("alice", loads), sharedNotes, now),
                                                today, later, freshId);
      asWritten.sharedSplits == [] && !asWritten.sharedFlag
    ensures var corrected := TransactionFromRow(EditRow(row, amount, description, category, device, txnDate,
                                                        true, ParsedCell("alice"), sharedNotes, now),
                                                today, later, freshId);
      corrected.sharedSplits == [SharedSplit("alice", None)] && corrected.sharedFlag
  {
    var alice := [SharedSplit("alice", None)];
    assert Writable(alice[0]) by {
      assert IsStripped("alice");
      assert IsLower("alice");
    }
    SharedEntriesRoundTrip(alice);
    assert EntriesText(alice) == "alice" by {
      assert EntryTexts(alice) == EntryTexts([]) + ["alice"];
    }
    EditReadsBack(row, amount, description, category, device, txnDate, true, "alice", sharedNotes, now,
                  today, later, freshId);
  }
}
