/** validate_transaction (logic.py): every rule a record breaks, in the
    order the rules are checked. */
module Validation {
  import opened Options
  import opened Calendar
  import opened Ledger

  datatype ValidationError =
    | UnsupportedType(txType: string)
    | UnsupportedDevice(device: string)
    | NonPositiveAmount
    | InvalidDate(date: Date)

  /** The date check: the date's ISO text reads back as the same date. */
  predicate DateReadsBack(d: Date) {
    ParseIsoDate(FormatDate(d)) == Some(d)
  }

  function TypeErrors(tx: Transaction): (r: seq<ValidationError>)
    ensures |r| <= 1 && forall e :: e in r ==> e.UnsupportedType?
    ensures UnsupportedType(tx.txType) in r <==> tx.txType !in AllowedTxTypes
  {
    if tx.txType !in AllowedTxTypes then [UnsupportedType(tx.txType)] else []
  }

  function DeviceErrors(tx: Transaction): (r: seq<ValidationError>)
    ensures |r| <= 1 && forall e :: e in r ==> e.UnsupportedDevice?
    ensures UnsupportedDevice(tx.device) in r <==> tx.device != "" && tx.device !in AllowedDevices
  {
    if tx.device != "" && tx.device !in AllowedDevices then [UnsupportedDevice(tx.device)] else []
  }

  function AmountErrors(tx: Transaction): (r: seq<ValidationError>)
    ensures |r| <= 1 && forall e :: e in r ==> e.NonPositiveAmount?
    ensures NonPositiveAmount in r <==> tx.amount <= 0
  {
    if tx.amount <= 0 then [NonPositiveAmount] else []
  }

  function DateErrors(tx: Transaction): (r: seq<ValidationError>)
    ensures |r| <= 1 && forall e :: e in r ==> e.InvalidDate?
    ensures InvalidDate(tx.date) in r <==> !DateReadsBack(tx.date)
  {
    if !DateReadsBack(tx.date) then [InvalidDate(tx.date)] else []
  }

  /** validate_transaction: (ok, errors). Each rule contributes its error
      exactly when it is broken, and ok holds exactly when none is. */
  function ValidateTransaction(tx: Transaction): (r: (bool, seq<ValidationError>))
    ensures r.0 <==> r.1 == []
    ensures UnsupportedType(tx.txType) in r.1 <==> tx.txType !in AllowedTxTypes
    ensures UnsupportedDevice(tx.device) in r.1 <==> tx.device != "" && tx.device !in AllowedDevices
    ensures NonPositiveAmount in r.1 <==> tx.amount <= 0
    ensures InvalidDate(tx.date) in r.1 <==> !ValidDate(tx.date)
    ensures |r.1| <= 4
  {
    DateCheckExact(tx.date);
    var t, d, a, dt := TypeErrors(tx), DeviceErrors(tx), AmountErrors(tx), DateErrors(tx);
    var errors := t + d + a + dt;
    assert forall e :: e in errors <==> e in t || e in d || e in a || e in dt;
    (|errors| == 0, errors)
  }

  /** The date check rejects exactly the dates Python's date type cannot
      hold; a date built by Python always passes it. */
  lemma DateCheckExact(d: Date)
    ensures DateReadsBack(d) <==> ValidDate(d)
  {
    if ValidDate(d) {
      IsoDateRoundTrip(d);
    }
  }

  /** A record passes exactly when it has a known type, an allowed or
      empty device, a positive amount and a real date. */
  lemma ValidIff(tx: Transaction)
    ensures ValidateTransaction(tx).0 <==>
      tx.txType in AllowedTxTypes && (tx.device == "" || tx.device in AllowedDevices)
      && tx.amount > 0 && ValidDate(tx.date)
  {
    var r := ValidateTransaction(tx);
    if !r.0 {
      assert r.1 != [];
      var e := r.1[0];
      assert e in r.1;
      match e {
        case UnsupportedType(t) =>
        case UnsupportedDevice(dv) =>
        case NonPositiveAmount =>
        case InvalidDate(dt) =>
      }
    }
  }
}
