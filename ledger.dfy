/** The ledger's record of one money movement, the names of its kinds,
    and its codec to and from a storage row (logic.py). A row is the flat
    text form the CSV file holds; its "shared_splits" cell is JSON text,
    which this model carries as the value json.loads makes of it. */
module Ledger {
  import opened Text
  import opened Options
  import opened Decimal
  import opened Calendar
  import opened JsonValues

  // ---- the record ----

  /** One participant of a shared expense and, when given, the cents
      they owe. */
  datatype SharedSplit = SharedSplit(name: string, amount: Option<int>)

  /** A transaction; amount in cents. */
  datatype Transaction = Transaction(
    id: string,
    timestamp: DateTime,
    txType: string,
    subType: string,
    amount: int,
    date: Date,
    description: string,
    category: string,
    device: string,
    location: string,
    occasion: string,
    effectsBalance: bool,
    linkedTxId: string,
    sharedFlag: bool,
    sharedSplits: seq<SharedSplit>,
    sharedNotes: string)

  /** What a Python call ends in when the model follows a TypeError. */
  datatype Outcome<T> = Returns(value: T) | RaisesTypeError

  // ---- kinds, devices and markers ----

  const Income := "income"
  const Expense := "expense"
  const AllowedTxTypes: set<string> := {"income", "expense", "transfer"}
  const AllowedDevices: set<string> :=
    {"UPI", "CREDIT_CARD", "CREDIT_CARD_UPI", "CASH", "DEBIT", "BANK_TRANSFER", "OTHER", "SAVINGS_WITHDRAW"}
  const CreditCardDevices: set<string> := {"CREDIT_CARD", "CREDIT_CARD_UPI"}
  const CreditCardExpenseSubType := "credit_card_expense"
  const CreditCardPaymentSubType := "credit_card_payment"
  const CreditCardDebtSubType := "credit_card_debt"
  const RegularSubType := "regular"

  lemma CreditCardDevicesAllowed()
    ensures CreditCardDevices <= AllowedDevices
  {
  }

  /** normalize_amount: the magnitude of an amount, in whole cents. */
  function NormalizeAmount(amount: int): (r: int)
    ensures r >= 0 && (r == amount || r == -amount)
    ensures amount >= 0 ==> r == amount
  {
    Abs(amount)
  }

  // ---- the shared-split list codec ----

  /** The JSON value one split is written as: {"name": ..., "amount": ...}. */
  function EncodeSplit(s: SharedSplit): Json {
    JObject(map["name" := JString(s.name),
                "amount" := match s.amount case None => JNull case Some(c) => JNumber(c)])
  }

  /** The "shared_splits" cell of a row: empty or absent, or text that
      json.loads turned into doc (None where json.loads raises). */
  datatype SplitsCell = Blank | Loaded(doc: Option<Json>)

  /** _serialize_shared_splits: nothing for no splits, else a JSON list
      of the splits in order. */
  function SerializeSharedSplits(splits: seq<SharedSplit>): (cell: SplitsCell)
    ensures cell == Blank <==> splits == []
  {
    if splits == [] then Blank
    else Loaded(Some(JArray(EncodeSplits(splits))))
  }

  /** The JSON items of a split list, in order. */
  function EncodeSplits(splits: seq<SharedSplit>): (items: seq<Json>)
    ensures |items| == |splits|
  {
    if splits == [] then [] else EncodeSplits(splits[..|splits| - 1]) + [EncodeSplit(splits[|splits| - 1])]
  }

  /** One item of the decoded list: a mapping with a non-blank name
      (str of the "name" entry, stripped) and an amount that is absent
      when the entry is missing, null or "", or float() refuses it. */
  function DecodeSplit(item: Json): (r: Option<SharedSplit>)
    ensures r.Some? ==> r.value.name != [] && IsStripped(r.value.name)
  {
    match item
    case JObject(m) =>
      var nameText := ToStr(if "name" in m then m["name"] else JString(""));
      if nameText.None? then None
      else
        var name := Strip(nameText.value);
        if name == [] then None
        else
          var amountRaw := if "amount" in m then m["amount"] else JNull;
          var amount := if amountRaw == JNull || amountRaw == JString("") then None else ToFloat(amountRaw);
          Some(SharedSplit(name, amount))
    case _ => None
  }

  function DecodedList(item: Json): (r: seq<SharedSplit>)
    ensures |r| <= 1
    ensures r != [] ==> r[0].name != [] && IsStripped(r[0].name)
  {
    match DecodeSplit(item)
    case None => []
    case Some(s) => [s]
  }

  /** The splits decoded from a JSON list, items that are not splits
      skipped. */
  function DecodeSplits(items: seq<Json>): (r: seq<SharedSplit>)
    ensures |r| <= |items|
  {
    if items == [] then []
    else DecodeSplits(items[..|items| - 1]) + DecodedList(items[|items| - 1])
  }

  /** Every split has a non-blank, stripped name. */
  predicate WellNamed(splits: seq<SharedSplit>) {
    forall k :: 0 <= k < |splits| ==> splits[k].name != [] && IsStripped(splits[k].name)
  }

  /** Every decoded split has a non-blank, stripped name. */
  lemma {:induction false} DecodedNamesStripped(items: seq<Json>)
    ensures WellNamed(DecodeSplits(items))
  {
    if items != [] {
      var front := DecodeSplits(items[..|items| - 1]);
      var last := DecodedList(items[|items| - 1]);
      DecodedNamesStripped(items[..|items| - 1]);
      assert DecodeSplits(items) == front + last;
      if last != [] {
        assert WellNamed([last[0]]);
        assert last == [last[0]];
      }
      assert WellNamed(front + last);
    }
  }

  /** What `for item in data` visits: the items of a list, the characters
      of a string (each a string, so each skipped), the keys of a dict
      (strings as well, so all skipped; the model visits none). None for
      null, booleans and numbers, which Python cannot iterate. */
  function Iterated(doc: Json): Option<seq<Json>> {
    match doc
    case JArray(items) => Some(items)
    case JString(s) => Some(seq(|s|, k requires 0 <= k < |s| => JString([s[k]])))
    case JObject(_) => Some([])
    case _ => None
  }

  /** The splits a row's cell decodes to: none for an empty cell, for
      text json.loads refuses, and for a document that is not a list of
      split objects. */
  function SplitsOfCell(cell: SplitsCell): (r: seq<SharedSplit>)
    ensures forall k :: 0 <= k < |r| ==> r[k].name != [] && IsStripped(r[k].name)
    ensures cell == Blank || cell == Loaded(None) ==> r == []
  {
    match cell
    case Blank => []
    case Loaded(None) => []
    case Loaded(Some(doc)) =>
      match Iterated(doc)
      case None => []
      case Some(items) =>
        DecodedNamesStripped(items);
        DecodeSplits(items)
  }

  /** _deserialize_shared_splits as written: the loop over the decoded
      document runs outside the try, so a document that is a number, a
      boolean or null raises TypeError to the caller. */
  method DeserializeSharedSplits(cell: SplitsCell) returns (r: Outcome<seq<SharedSplit>>)
    ensures r.RaisesTypeError? <==> cell.Loaded? && cell.doc.Some? && Iterated(cell.doc.value).None?
    ensures r.Returns? ==> r.value == SplitsOfCell(cell)
  {
    if cell.Blank? || cell.doc.None? {
      return Returns([]);
    }
    var data := Iterated(cell.doc.value);
    if data.None? {
      return RaisesTypeError;
    }
    var items := data.value;
    var splits: seq<SharedSplit> := [];
    var i := 0;
    while i < |items|
      invariant 0 <= i <= |items|
      invariant splits == DecodeSplits(items[..i])
    {
      assert items[..i + 1][..i] == items[..i];
      match DecodeSplit(items[i]) {
        case None =>
        case Some(s) => splits := splits + [s];
      }
      i := i + 1;
    }
    assert items[..i] == items;
    return Returns(splits);
  }

  lemma DecodeEncodedSplit(s: SharedSplit)
    requires s.name != [] && IsStripped(s.name)
    ensures DecodeSplit(EncodeSplit(s)) == Some(s)
  {
    var amountJson := match s.amount case None => JNull case Some(c) => JNumber(c);
    var m := map["name" := JString(s.name), "amount" := amountJson];
    assert EncodeSplit(s) == JObject(m);
    assert m["name"] == JString(s.name) && m["amount"] == amountJson;
    assert ToStr(JString(s.name)) == Some(s.name);
    assert Strip(s.name) == s.name;
    if s.amount.Some? {
      assert ToFloat(amountJson) == s.amount;
    }
  }

  lemma {:induction false} DecodeEncodedSplits(splits: seq<SharedSplit>)
    requires forall k :: 0 <= k < |splits| ==> splits[k].name != [] && IsStripped(splits[k].name)
    ensures DecodeSplits(EncodeSplits(splits)) == splits
  {
    if splits != [] {
      var n := |splits|;
      var items := EncodeSplits(splits);
      var front := splits[..n - 1];
      var last := splits[n - 1];
      assert splits == front + [last];
      assert items == EncodeSplits(front) + [EncodeSplit(last)];
      assert items[..n - 1] == EncodeSplits(front);
      assert items[n - 1] == EncodeSplit(last);
      assert DecodeSplits(items) == DecodeSplits(EncodeSplits(front)) + DecodedList(EncodeSplit(last));
      DecodeEncodedSplits(front);
      DecodeEncodedSplit(last);
      assert DecodedList(EncodeSplit(last)) == [last];
    }
  }

  /** Decoding what was encoded gives the splits back, when every name is
      non-blank and already stripped. */
  lemma SplitsRoundTrip(splits: seq<SharedSplit>)
    requires forall k :: 0 <= k < |splits| ==> splits[k].name != [] && IsStripped(splits[k].name)
    ensures SplitsOfCell(SerializeSharedSplits(splits)) == splits
  {
    DecodeEncodedSplits(splits);
  }

  // ---- the row codec ----

  /** A storage row: the text cells by column name, and the shared-splits
      cell. */
  datatype Row = Row(fields: map<string, string>, splits: SplitsCell)

  /** row.get(key), or the default when the column is absent. */
  function Field(row: Row, key: string, default: string): string {
    if key in row.fields then row.fields[key] else default
  }

  /** The truth words of a boolean column. */
  predicate TruthWord(s: string) {
    Lower(s) in {"true", "1", "yes"}
  }

  function BoolText(b: bool): string {
    if b then "True" else "False"
  }

  /** transaction_to_row. */
  function TransactionToRow(tx: Transaction): (row: Row)
    ensures "shared_flag" in row.fields
    ensures row.fields["shared_flag"] == "True" <==> tx.sharedFlag && tx.sharedSplits != []
    ensures row.splits == Blank <==> tx.sharedSplits == []
  {
    Row(map[
      "id" := tx.id,
      "timestamp" := FormatDateTime(tx.timestamp),
      "tx_type" := tx.txType,
      "sub_type" := tx.subType,
      "amount" := FormatCents(tx.amount),
      "date" := FormatDate(tx.date),
      "description" := tx.description,
      "category" := tx.category,
      "device" := tx.device,
      "location" := tx.location,
      "occasion" := tx.occasion,
      "effects_balance" := BoolText(tx.effectsBalance),
      "linked_tx_id" := tx.linkedTxId,
      "shared_flag" := BoolText(tx.sharedFlag && tx.sharedSplits != []),
      "shared_notes" := tx.sharedNotes],
      SerializeSharedSplits(tx.sharedSplits))
  }

  /** transaction_from_row: a liberal decoder that never fails. today,
      now and freshId stand for date.today(), datetime.utcnow() and a
      fresh uuid4 hex. */
  function TransactionFromRow(row: Row, today: Date, now: DateTime, freshId: string): (tx: Transaction)
    ensures tx.sharedFlag ==> tx.sharedSplits != []
    ensures forall k :: 0 <= k < |tx.sharedSplits| ==>
      tx.sharedSplits[k].name != [] && IsStripped(tx.sharedSplits[k].name)
    ensures ValidDate(today) ==> ValidDate(tx.date)
    ensures ValidDateTime(now) ==> ValidDateTime(tx.timestamp)
  {
    var splits := SplitsOfCell(row.splits);
    Transaction(
      Field(row, "id", freshId),
      ParseIsoDateTime(Field(row, "timestamp", "")).GetOr(now),
      Field(row, "tx_type", Expense),
      Field(row, "sub_type", RegularSubType),
      ParseDecimal(Field(row, "amount", "0")).GetOr(0),
      ParseIsoDate(Field(row, "date", "")).GetOr(today),
      Field(row, "description", ""),
      Field(row, "category", ""),
      Field(row, "device", "OTHER"),
      Field(row, "location", ""),
      Field(row, "occasion", ""),
      TruthWord(Field(row, "effects_balance", "True")),
      Field(row, "linked_tx_id", ""),
      TruthWord(Field(row, "shared_flag", "False")) && splits != [],
      splits,
      Field(row, "shared_notes", ""))
  }

  /** A bad field falls back to its default: 0 for an amount float()
      refuses, today for a bad date, now for a bad timestamp, a fresh id
      for a missing one, no splits and no sharing for split text that
      is not JSON. */
  lemma FromRowDefaults(row: Row, today: Date, now: DateTime, freshId: string)
    ensures var tx := TransactionFromRow(row, today, now, freshId);
      && (ParseDecimal(Field(row, "amount", "0")) == None ==> tx.amount == 0)
      && (ParseIsoDate(Field(row, "date", "")) == None ==> tx.date == today)
      && (ParseIsoDateTime(Field(row, "timestamp", "")) == None ==> tx.timestamp == now)
      && ("id" !in row.fields ==> tx.id == freshId)
      && ("amount" !in row.fields ==> tx.amount == 0)
      && (row.splits == Loaded(None) ==> tx.sharedSplits == [] && !tx.sharedFlag)
      && (tx.sharedFlag <==> TruthWord(Field(row, "shared_flag", "False")) && tx.sharedSplits != [])
  {
    assert ParseDecimal("0") == Some(0) by {
      assert Strip("0") == "0";
      assert IndexOf("0", '.') == -1;
      assert DigitsValue("0") == 0 by { assert "0"[..0] == []; }
    }
  }

  /** transaction_from_row(transaction_to_row(tx)) == tx for a record
      with a real date and timestamp, whose flag implies splits and whose
      split names are non-blank and stripped. */
  lemma RowRoundTrip(tx: Transaction, today: Date, now: DateTime, freshId: string)
    requires ValidDate(tx.date) && ValidDateTime(tx.timestamp)
    requires tx.sharedFlag ==> tx.sharedSplits != []
    requires forall k :: 0 <= k < |tx.sharedSplits| ==>
      tx.sharedSplits[k].name != [] && IsStripped(tx.sharedSplits[k].name)
    ensures TransactionFromRow(TransactionToRow(tx), today, now, freshId) == tx
  {
    var row := TransactionToRow(tx);
    RowFields(tx);
    FormatParse(tx.amount);
    IsoDateRoundTrip(tx.date);
    DateTimeRoundTrip(tx.timestamp);
    SplitsRoundTrip(tx.sharedSplits);
    TruthWords();
    var back := TransactionFromRow(row, today, now, freshId);
    assert back.amount == tx.amount;
    assert back.date == tx.date;
    assert back.timestamp == tx.timestamp;
    assert back.sharedSplits == tx.sharedSplits;
    assert back.effectsBalance == tx.effectsBalance;
    assert back.sharedFlag == tx.sharedFlag;
  }

  /** The text cells transaction_to_row writes, by column. */
  lemma RowFields(tx: Transaction)
    ensures var f := TransactionToRow(tx).fields;
      && "id" in f && f["id"] == tx.id && "timestamp" in f && f["timestamp"] == FormatDateTime(tx.timestamp)
      && "tx_type" in f && f["tx_type"] == tx.txType && "sub_type" in f && f["sub_type"] == tx.subType
      && "amount" in f && f["amount"] == FormatCents(tx.amount) && "date" in f && f["date"] == FormatDate(tx.date)
      && "description" in f && f["description"] == tx.description && "category" in f && f["category"] == tx.category
      && "device" in f && f["device"] == tx.device && "location" in f && f["location"] == tx.location
      && "occasion" in f && f["occasion"] == tx.occasion && "effects_balance" in f && f["effects_balance"] == BoolText(tx.effectsBalance)
      && "linked_tx_id" in f && f["linked_tx_id"] == tx.linkedTxId
      && "shared_flag" in f && f["shared_flag"] == BoolText(tx.sharedFlag && tx.sharedSplits != [])
      && "shared_notes" in f && f["shared_notes"] == tx.sharedNotes
  {
    IdentityFields(tx);
    DescriptiveFields(tx);
    FlagFields(tx);
  }

  lemma IdentityFields(tx: Transaction)
    ensures var f := TransactionToRow(tx).fields;
      && "id" in f && f["id"] == tx.id && "timestamp" in f && f["timestamp"] == FormatDateTime(tx.timestamp)
      && "tx_type" in f && f["tx_type"] == tx.txType && "sub_type" in f && f["sub_type"] == tx.subType
      && "amount" in f && f["amount"] == FormatCents(tx.amount)
  {
  }

  lemma DescriptiveFields(tx: Transaction)
    ensures var f := TransactionToRow(tx).fields;
      && "date" in f && f["date"] == FormatDate(tx.date)
      && "description" in f && f["description"] == tx.description && "category" in f && f["category"] == tx.category
      && "device" in f && f["device"] == tx.device && "location" in f && f["location"] == tx.location
  {
  }

  lemma FlagFields(tx: Transaction)
    ensures var f := TransactionToRow(tx).fields;
      && "occasion" in f && f["occasion"] == tx.occasion && "effects_balance" in f && f["effects_balance"] == BoolText(tx.effectsBalance)
      && "linked_tx_id" in f && f["linked_tx_id"] == tx.linkedTxId
      && "shared_flag" in f && f["shared_flag"] == BoolText(tx.sharedFlag && tx.sharedSplits != [])
      && "shared_notes" in f && f["shared_notes"] == tx.sharedNotes
  {
  }

  /** transaction_to_row writes exactly the text columns of the table
      (the split column is the row's other part). */
  lemma RowColumns(tx: Transaction)
    ensures TransactionToRow(tx).fields.Keys
      == {"id", "timestamp", "tx_type", "sub_type", "amount", "date", "description",
          "category", "device", "location", "occasion", "effects_balance",
          "linked_tx_id", "shared_flag", "shared_notes"}
  {
  }

  lemma TruthWords()
    ensures TruthWord(BoolText(true)) && !TruthWord(BoolText(false))
  {
    assert Lower("True") == "true";
    assert Lower("False") == "false";
  }

  /** transaction_from_row as written: the TypeError of a split cell
      holding a JSON number, boolean or null escapes it. */
  method TransactionFromRowAsWritten(row: Row, today: Date, now: DateTime, freshId: string)
    returns (r: Outcome<Transaction>)
    ensures r.RaisesTypeError? <==> row.splits.Loaded? && row.splits.doc.Some? && Iterated(row.splits.doc.value).None?
    ensures r.Returns? ==> r.value == TransactionFromRow(row, today, now, freshId)
  {
    var splits := DeserializeSharedSplits(row.splits);
    if splits.RaisesTypeError? {
      return RaisesTypeError;
    }
    return Returns(TransactionFromRow(row, today, now, freshId));
  }

  /** A row whose split cell holds the text "5" makes the decoder as
      written raise; the corrected decoder reads it with no splits. */
  method SplitNumberRaises(today: Date, now: DateTime) returns (r: Outcome<Transaction>)
    ensures r.RaisesTypeError?
    ensures TransactionFromRow(Row(map[], Loaded(Some(JNumber(500)))), today, now, "x").sharedSplits == []
  {
    r := TransactionFromRowAsWritten(Row(map[], Loaded(Some(JNumber(500)))), today, now, "x");
  }
}
